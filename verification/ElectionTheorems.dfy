/** Main results about the election: safety over any number of rounds, agreement whenever the
    protocol comes to rest, and exactly which overlap of threads breaks them. */
module ElectionTheorems {
  import opened Options
  import opened Election
  import opened ElectionSafety

  /** Nothing is under way but threads in front of gates.  Leaders are arbitrary (typically the id of a
      leader that failed) except that the minimum does not trust itself alone. */
  ghost predicate AtRest(s: State) {
    && |s.nodes| > 0
    && (forall t :: t in s.bag ==> t.Start? && t.node < |s.nodes|)
    && (s.nodes[0].leader == Some(0) ==> forall i :: 0 <= i < |s.nodes| ==> s.nodes[i].leader == Some(0))
  }

  /** ... and the gate of the minimum is open. */
  ghost predicate Ready(s: State) {
    AtRest(s) && !s.nodes[0].started
  }

  /** Daemons before anything happens: all gates are open. */
  ghost predicate Init(s: State) {
    AtRest(s) && forall i :: 0 <= i < |s.nodes| ==> !s.nodes[i].started
  }

  lemma ReadyIsGood(s: State)
    requires Ready(s)
    ensures Inv(s)
  {
    forall i: nat ensures Copies(s.bag, i) == 0 {
      assert Announce(0, i) !in s.bag && Confirm(i, 0) !in s.bag;
    }
    assert Passed(0) !in s.bag;
  }

  lemma FireKeepsInv(s: State, k: nat)
    requires Inv(s) && SafeClear(s, Act(k)) && Fire(s, k).Some?
    ensures Inv(Fire(s, k).value)
  {
    match s.bag[k]
    case Start(i) =>
      if s.nodes[i].started {
        BlockedAtGate(s, k);
      } else {
        PassesGate(s, k);
      }
    case Passed(i) =>
      if i == 0 {
        RoundOpens(s, k);
      } else {
        NodeAsks(s, k);
      }
    case Request(_, _, _) => FireRequest(s, k);
    case Ok(_, _) => FireOk(s, k);
    case Waiting(_, _) => FireWaiting(s, k);
    case Announce(_, _) => FireAnnounce(s, k);
    case Confirm(_, _) => FireConfirm(s, k);
  }

  lemma TriggerKeepsInv(s: State, i: nat)
    requires Inv(s) && i < |s.nodes|
    ensures Inv(s.(bag := s.bag + [Start(i)]))
  {
    var t := s.(bag := s.bag + [Start(i)]);
    RoundIgnores(s, t);
    forall j: nat, h: nat | Waiting(j, h) in t.bag && j < |t.nodes| ensures ThreadOk(t, j, h) {
      assert Waiting(j, h) in s.bag;
      assert ThreadOk(s, j, h);
      if !s.nodes[j].okReceived && Ok(j, h) !in s.bag {
        var q :| Request(j, h, q) in s.bag;
        assert Request(j, h, q) in t.bag;
      }
    }
  }

  lemma {:induction false} SafeRunsKeepInv(s: State, actions: seq<Action>)
    requires Inv(s) && Run(s, actions).Some? && SafeRun(s, actions)
    ensures Inv(Run(s, actions).value) && |Run(s, actions).value.nodes| == |s.nodes|
    decreases |actions|
  {
    if actions != [] {
      var before, a := actions[..|actions| - 1], actions[|actions| - 1];
      SafeRunsKeepInv(s, before);
      if a.Act? {
        FireKeepsInv(Run(s, before).value, a.k);
      } else {
        TriggerKeepsInv(Run(s, before).value, a.i);
      }
    }
  }

  // ---- safety ----

  /** Over any number of rounds and triggers, in any interleaving: nobody but the minimum ever
      announces itself, and the minimum holds itself as leader only once all others do. */
  lemma LeadershipIsSafe(s: State, actions: seq<Action>)
    requires Ready(s) && Run(s, actions).Some? && SafeRun(s, actions)
    ensures var t := Run(s, actions).value;
      && |t.nodes| == |s.nodes|
      && (forall leader, i :: Announce(leader, i) in t.bag ==> leader == 0)
      && (t.nodes[0].leader == Some(0) ==> forall i :: 0 <= i < |t.nodes| ==> t.nodes[i].leader == Some(0))
  {
    ReadyIsGood(s);
    SafeRunsKeepInv(s, actions);
  }

  /** Some action makes a node other than the minimum announce itself. */
  ghost predicate ImpostorNext(s: State) {
    exists p: nat, i: nat, j: nat :: Impostor(s, p, i, j)
  }

  ghost predicate Impostor(s: State, p: nat, i: nat, j: nat) {
    i != 0 && Fire(s, p).Some? && Announce(i, j) in Fire(s, p).value.bag
  }

  /** The exact condition.  After a thread of node i clears okReceived, a node that is not the
      minimum can announce itself next if and only if another thread of i had all its replies
      but had not yet looked at okReceived. */
  lemma UnsafeClearExactly(s: State, k: nat)
    requires Inv(s) && Clears(s, k)
    ensures Fire(s, k).Some?
    ensures SafeClear(s, Act(k)) <==> !ImpostorNext(Fire(s, k).value)
  {
    var t := Fire(s, k).value;
    if SafeClear(s, Act(k)) {
      NodeAsks(s, k);
      forall p: nat, i: nat, j: nat ensures !Impostor(t, p, i, j) {
        if Fire(t, p).Some? {
          NoImpostor(t, p);
        }
      }
    } else {
      ClearMakesImpostor(s, k);
    }
  }

  lemma NoImpostor(t: State, p: nat)
    requires Inv(t) && Fire(t, p).Some?
    ensures forall x :: x in Fire(t, p).value.bag && x.Announce? ==> x.leader == 0
  {
    WithoutFacts(t.bag, p);
    AnnouncedOnce(|t.nodes|);
    if t.bag[p].Waiting? {
      FireWaiting(t, p);
    } else if t.bag[p].Passed? {
      RequestsFacts(t.bag[p].node, t.threads);
    }
    forall x | x in Fire(t, p).value.bag && x.Announce? ensures x.leader == 0 {
      assert x in t.bag || x in Announcements(0, |t.nodes|);
      assert x in t.bag ==> TokenOk(x, |t.nodes|, t.threads);
    }
  }

  lemma JoinedThreadAnnounces(t: State, i: nat, thread: nat)
    requires Waiting(i, thread) in t.bag && i < |t.nodes| && !t.nodes[i].okReceived
    requires !Outstanding(t.bag, i, thread) && i != 0
    ensures ImpostorNext(t)
  {
    var p :| 0 <= p < |t.bag| && t.bag[p] == Waiting(i, thread);
    WithoutFacts(t.bag, p);
    assert !Outstanding(Without(t.bag, p), i, thread);
    assert Announcements(i, |t.nodes|)[0] == Announce(i, 0);
    assert Fire(t, p) == Some(t.(bag := Without(t.bag, p) + Announcements(i, |t.nodes|)));
    assert Announce(i, 0) in Fire(t, p).value.bag;
    assert Impostor(t, p, i, 0);
  }

  lemma ClearMakesImpostor(s: State, k: nat)
    requires Inv(s) && Clears(s, k) && !SafeClear(s, Act(k))
    ensures ImpostorNext(Fire(s, k).value)
  {
    var i := s.bag[k].node;
    var thread :| Waiting(i, thread) in s.bag && !Outstanding(s.bag, i, thread);
    assert TokenOk(Waiting(i, thread), |s.nodes|, s.threads);
    var added := Proceeds(i, |s.nodes|, s.threads);
    var t := Fire(s, k).value;
    assert t.bag == Without(s.bag, k) + added;
    Removed(s, k, added);
    RequestsFacts(i, s.threads);
    assert Waiting(i, thread) != s.bag[k];
    JoinedThreadAnnounces(t, i, thread);
  }

  // ---- agreement ----

  /** Somebody is on the way to make the minimum start, or it has started, or it is done. */
  ghost predicate Underway(s: State)
    requires |s.nodes| > 0
  {
    s.nodes[0].leader == Some(0) || s.nodes[0].started || Start(0) in s.bag
    || (exists f, thread :: Request(f, thread, 0) in s.bag) || exists i :: Passed(i) in s.bag
  }

  /** A thread is in front of the open gate of node i. */
  predicate Heeding(s: State, i: nat) { i < |s.nodes| && Start(i) in s.bag && !s.nodes[i].started }

  ghost predicate Heeded(s: State) { exists i :: Heeding(s, i) }

  /** An election that was triggered is not forgotten. */
  ghost predicate Live(s: State)
    requires |s.nodes| > 0
  {
    Underway(s) || Heeded(s)
  }

  lemma StaysUnderway(s: State, k: nat)
    requires Inv(s) && SafeClear(s, Act(k)) && Fire(s, k).Some? && Underway(s)
    ensures |Fire(s, k).value.nodes| > 0 && Underway(Fire(s, k).value)
  {
    var t := Fire(s, k).value;
    assert s.bag[k] in s.bag;
    WithoutFacts(s.bag, k);
    if s.bag[k].Waiting? {
      FireWaiting(s, k);
    }
    if s.nodes[0].leader != Some(0) && !s.nodes[0].started && Start(0) !in s.bag {
      if f, thread :| Request(f, thread, 0) in s.bag {
        RequestStaysUnderway(s, k, f, thread);
      } else {
        var i :| Passed(i) in s.bag;
        PassedStaysUnderway(s, k, i);
      }
    }
  }

  /** A request to the minimum stays under way, or becomes a thread there. */
  lemma RequestStaysUnderway(s: State, k: nat, f: nat, thread: nat)
    requires |s.nodes| > 0 && Fire(s, k).Some? && Request(f, thread, 0) in s.bag
    ensures |Fire(s, k).value.nodes| > 0 && Underway(Fire(s, k).value)
  {
    var t := Fire(s, k).value;
    WithoutFacts(s.bag, k);
    if s.bag[k] == Request(f, thread, 0) {
      assert t.bag[|t.bag| - 1] == Start(0);
    } else {
      assert Request(f, thread, 0) in t.bag;
    }
  }

  /** A thread behind a gate stays there, or asks the minimum among others. */
  lemma PassedStaysUnderway(s: State, k: nat, i: nat)
    requires Inv(s) && Fire(s, k).Some? && !s.nodes[0].started && Passed(i) in s.bag
    ensures |Fire(s, k).value.nodes| > 0 && Underway(Fire(s, k).value)
  {
    var t := Fire(s, k).value;
    WithoutFacts(s.bag, k);
    if s.bag[k] == Passed(i) {
      assert multiset(s.bag)[Passed(0)] == 0;
      RequestsFacts(i, s.threads);
      assert Request(i, s.threads, 0) in Proceeds(i, |s.nodes|, s.threads);
      assert Request(i, s.threads, 0) in t.bag;
    } else {
      assert Passed(i) in t.bag;
    }
  }

  lemma StaysLive(s: State, k: nat)
    requires Inv(s) && SafeClear(s, Act(k)) && Fire(s, k).Some? && Live(s)
    ensures |Fire(s, k).value.nodes| > 0 && Live(Fire(s, k).value)
  {
    var t := Fire(s, k).value;
    if Underway(s) {
      StaysUnderway(s, k);
    } else {
      HeededStaysLive(s, k);
    }
  }

  lemma HeededStaysLive(s: State, k: nat)
    requires Inv(s) && Fire(s, k).Some? && !Underway(s) && Heeded(s)
    requires s.bag[k].Waiting? ==> SafeClear(s, Act(k))
    ensures |Fire(s, k).value.nodes| > 0 && Live(Fire(s, k).value)
  {
    var t := Fire(s, k).value;
    assert s.bag[k] in s.bag;
    WithoutFacts(s.bag, k);
    if s.bag[k].Start? && !s.nodes[s.bag[k].node].started {
      assert t.bag[|t.bag| - 1] == Passed(s.bag[k].node);
    } else {
      var i :| Heeding(s, i);
      assert Start(i) in t.bag;
      assert Heeding(t, i);
    }
  }

  lemma {:induction false} SafeRunsStayLive(s: State, actions: seq<Action>)
    requires Inv(s) && Live(s) && Run(s, actions).Some? && SafeRun(s, actions)
    ensures Inv(Run(s, actions).value) && Live(Run(s, actions).value)
    decreases |actions|
  {
    if actions != [] {
      var before, a := actions[..|actions| - 1], actions[|actions| - 1];
      SafeRunsStayLive(s, before);
      SafeRunsKeepInv(s, actions);
      var u := Run(s, before).value;
      if a.Act? {
        StaysLive(u, a.k);
      } else {
        TriggerStaysLive(u, a.i);
      }
    }
  }

  lemma TriggerStaysLive(s: State, i: nat)
    requires |s.nodes| > 0 && Live(s)
    ensures Live(s.(bag := s.bag + [Start(i)]))
  {
    var t := s.(bag := s.bag + [Start(i)]);
    assert Start(i) in t.bag;
    if Underway(s) && s.nodes[0].leader != Some(0) && !s.nodes[0].started && Start(0) !in s.bag {
      if f, thread :| Request(f, thread, 0) in s.bag {
        assert Request(f, thread, 0) in t.bag;
      } else {
        var j :| Passed(j) in s.bag;
        assert Passed(j) in t.bag;
      }
    }
    if !Underway(s) {
      var j :| Heeding(s, j);
      assert Heeding(t, j);
    }
  }

  ghost predicate CanAct(s: State, k: nat) { Fire(s, k).Some? && SafeClear(s, Act(k)) }

  /** No deadlock: while anything is going on, something can act, and safely. */
  lemma SomethingCanAct(s: State)
    requires Inv(s) && s.bag != []
    ensures exists k :: CanAct(s, k)
  {
    if k: nat :| k < |s.bag| && !s.bag[k].Waiting? {
      assert s.bag[k] in s.bag;
      if SafeClear(s, Act(k)) {
        assert CanAct(s, k);
      } else {
        RepliedThreadCanAct(s, s.bag[k].node);
      }
    } else {
      WithoutFacts(s.bag, 0);
      assert s.bag[0] in s.bag;
      forall t | t in s.bag ensures t.Waiting? {
        var k :| 0 <= k < |s.bag| && s.bag[k] == t;
      }
      assert CanAct(s, 0);
    }
  }

  /** A thread that has all its replies can look at the flag before it is cleared. */
  lemma RepliedThreadCanAct(s: State, i: nat)
    requires Inv(s) && exists thread :: Waiting(i, thread) in s.bag && !Outstanding(s.bag, i, thread)
    ensures exists k :: CanAct(s, k)
  {
    var thread :| Waiting(i, thread) in s.bag && !Outstanding(s.bag, i, thread);
    var k :| 0 <= k < |s.bag| && s.bag[k] == Waiting(i, thread);
    WithoutFacts(s.bag, k);
    assert TokenOk(s.bag[k], |s.nodes|, s.threads);
    assert CanAct(s, k);
  }

  /** Main result: once a node with an open gate is triggered, every schedule without further triggers ends after
      at most BagWeight steps, and when it ends every member holds the minimum as leader, and the
      gate of the minimum is open for the next election. */
  lemma {:induction false} ElectionsEndInAgreement(s: State, actions: seq<Action>)
    requires Ready(s) && Heeded(s) && Run(s, actions).Some? && SafeRun(s, actions)
    ensures NoTrigger(actions) ==> |actions| <= BagWeight(|s.nodes|, s.bag)
    ensures var t := Run(s, actions).value;
      (forall k :: !CanAct(t, k)) ==>
        && t.bag == [] && |t.nodes| == |s.nodes| && (forall i :: 0 <= i < |t.nodes| ==> t.nodes[i].leader == Some(0))
        && !t.nodes[0].started
  {
    var t := Run(s, actions).value;
    if NoTrigger(actions) {
      CascadeEnds(s, actions);
    }
    ReadyIsGood(s);
    SafeRunsStayLive(s, actions);
    SafeRunsKeepInv(s, actions);
    if forall k :: !CanAct(t, k) {
      if t.bag != [] {
        SomethingCanAct(t);
      }
      assert Underway(t) && Open(t) == {};
    }
  }

  // ---- who is told ----

  /** Every node remembers the leader that it holds as the one its listeners have heard of. */
  ghost predicate Remembered(s: State) {
    forall i :: 0 <= i < |s.nodes| ==> s.nodes[i].previousLeader == s.nodes[i].leader
  }

  /** So it stays, in all runs, safe or not.  The listeners are told of a leader that differs from the
      remembered one (CandidateCode.Candidate.SetNewLeader), so they hear of every change and of
      nothing else, however often a leader is announced. */
  lemma {:induction false} ListenersAreUpToDate(s: State, actions: seq<Action>)
    requires Remembered(s) && Run(s, actions).Some?
    ensures Remembered(Run(s, actions).value)
    decreases |actions|
  {
    if actions != [] {
      var before, a := actions[..|actions| - 1], actions[|actions| - 1];
      ListenersAreUpToDate(s, before);
      StepRemembers(Run(s, before).value, a);
    }
  }

  lemma StepRemembers(s: State, a: Action)
    requires Remembered(s) && Apply(s, a).Some?
    ensures Remembered(Apply(s, a).value)
  {
    if a.Act? {
      match s.bag[a.k] {
        case Announce(leader, i) =>
        case Confirm(_, i) =>
        case _ =>
      }
    }
  }

  // ---- a run in which the overlap happens ----

  function Acts(ks: seq<nat>): seq<Action> {
    seq(|ks|, j requires 0 <= j < |ks| => Act(ks[j]))
  }

  /** States that follow each other by single acts form a run. */
  lemma {:induction false} ChainIsRun(ss: seq<State>, ks: seq<nat>, i: nat)
    requires |ss| == |ks| + 1 && i <= |ks|
    requires forall j :: 0 <= j < |ks| ==> Fire(ss[j], ks[j]) == Some(ss[j + 1])
    ensures Run(ss[0], Acts(ks[..i])) == Some(ss[i])
  {
    if i > 0 {
      ChainIsRun(ss, ks, i - 1);
      assert Acts(ks[..i])[..i - 1] == Acts(ks[..i - 1]);
    }
  }

  const IDLE := Node(false, false, None, None, 0, 0)
  const PASSED := IDLE.(started := true)
  const ROUND := IDLE.(started := true, expected := 2)
  const TOLD := Node(false, false, Some(0), Some(0), 0, 0)
  const AGAIN := TOLD.(started := true)

  /** The scenes of the run; token PLAYS[i] acts in scene i. */
  function Scenes(): seq<State> {
    [State([IDLE, IDLE], [Start(1), Start(0), Start(1)], 0),
     State([IDLE, PASSED], [Start(0), Start(1), Passed(1)], 0),
     State([PASSED, PASSED], [Start(1), Passed(1), Passed(0)], 0),
     State([ROUND, PASSED], [Start(1), Passed(1), Announce(0, 0), Announce(0, 1)], 0),
     State([ROUND, TOLD], [Start(1), Passed(1), Announce(0, 0), Confirm(1, 0)], 0),
     State([ROUND, AGAIN], [Passed(1), Announce(0, 0), Confirm(1, 0), Passed(1)], 0),
     State([ROUND, AGAIN], [Passed(1), Announce(0, 0), Confirm(1, 0), Waiting(1, 0), Request(1, 0, 0)], 1),
     State([ROUND, AGAIN], [Passed(1), Announce(0, 0), Confirm(1, 0), Waiting(1, 0), Ok(1, 0), Start(0)], 1),
     State([ROUND, OnOk(AGAIN)], [Passed(1), Announce(0, 0), Confirm(1, 0), Waiting(1, 0), Start(0)], 1),
     State([ROUND, AGAIN],
       [Announce(0, 0), Confirm(1, 0), Waiting(1, 0), Start(0), Waiting(1, 1), Request(1, 1, 0)], 2),
     State([ROUND, AGAIN],
       [Announce(0, 0), Confirm(1, 0), Start(0), Waiting(1, 1), Request(1, 1, 0), Announce(1, 0), Announce(1, 1)], 2)]
  }

  const PLAYS: seq<nat> := [0, 0, 2, 3, 0, 3, 4, 4, 0, 2]

  lemma FirstScenes(i: nat)
    requires i < 5
    ensures Fire(Scenes()[i], PLAYS[i]) == Some(Scenes()[i + 1])
  {
    var t, u := Fire(Scenes()[i], PLAYS[i]).value, Scenes()[i + 1];
    assert Announcements(0, 2) == [Announce(0, 0), Announce(0, 1)];
    assert t.nodes == u.nodes;
    assert t.bag == u.bag;
  }

  lemma NextScenes(i: nat)
    requires 5 <= i < 9
    ensures Fire(Scenes()[i], PLAYS[i]) == Some(Scenes()[i + 1])
  {
    var t, u := Fire(Scenes()[i], PLAYS[i]).value, Scenes()[i + 1];
    assert Requests(1, 0) == [Request(1, 0, 0)] && Requests(1, 1) == [Request(1, 1, 0)];
    assert t.nodes == u.nodes;
    assert t.bag == u.bag;
  }

  lemma LastScene()
    ensures Fire(Scenes()[9], PLAYS[9]) == Some(Scenes()[10])
  {
    var t, u := Fire(Scenes()[9], PLAYS[9]).value, Scenes()[10];
    assert Announcements(1, 2) == [Announce(1, 0), Announce(1, 1)];
    assert t.nodes == u.nodes;
    assert t.bag == u.bag;
  }

  /** Two members, node 1 triggered twice.  Its first thread passes the gate and rests.  The
      announcement of node 0 opens the gate again, and a second thread passes, asks, and gets its
      OK.  Now the first thread clears okReceived, so the second, which has still to look at it,
      announces node 1 although node 0 is alive. */
  lemma OverlapBreaksSafety()
    ensures exists s, actions :: Init(s) && Run(s, actions).Some? && Announce(1, 0) in Run(s, actions).value.bag
  {
    forall i | 0 <= i < 10 ensures Fire(Scenes()[i], PLAYS[i]) == Some(Scenes()[i + 1]) {
      if i < 5 {
        FirstScenes(i);
      } else if i < 9 {
        NextScenes(i);
      } else {
        LastScene();
      }
    }
    ChainIsRun(Scenes(), PLAYS, 10);
    assert Init(Scenes()[0]);
    assert Scenes()[10].bag[5] == Announce(1, 0);
  }
}
