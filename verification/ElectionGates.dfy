/** The gates of the election: when one is closed, and what a gate does that stays closed when an
    election is over. */
module ElectionGates {
  import opened Options
  import opened Election
  import opened ElectionSafety
  import opened ElectionTheorems

  /** A thread of node i passes the gate and closes it behind itself. */
  predicate Passes(s: State, a: Action, i: nat) {
    a.Act? && a.k < |s.bag| && i < |s.nodes| && s.bag[a.k] == Start(i) && !s.nodes[i].started
  }

  /** Node i adopts a leader: one announced to it, or itself with the last confirmation. */
  predicate Adopts(s: State, a: Action, i: nat) {
    && a.Act? && a.k < |s.bag| && i < |s.nodes| && s.bag[a.k].node == i
    && match s.bag[a.k]
       case Announce(leader, _) => leader != i
       case Confirm(_, _) => s.nodes[i].expected == s.nodes[i].received + 1
       case _ => false
  }

  lemma GateAfterStep(s: State, a: Action, i: nat)
    requires Apply(s, a).Some? && i < |s.nodes|
    ensures |Apply(s, a).value.nodes| == |s.nodes|
    ensures Apply(s, a).value.nodes[i].started <==> Passes(s, a, i) || (s.nodes[i].started && !Adopts(s, a, i))
  {
    if a.Act? {
      match s.bag[a.k] {
        case Announce(leader, j) =>
        case Confirm(_, j) =>
        case Passed(j) =>
        case _ =>
      }
    }
  }

  ghost predicate PassesIn(s: State, actions: seq<Action>, i: nat, k: nat)
    requires k < |actions|
  {
    Run(s, actions[..k]).Some? && Passes(Run(s, actions[..k]).value, actions[k], i)
  }

  ghost predicate AdoptsIn(s: State, actions: seq<Action>, i: nat, k: nat)
    requires k < |actions|
  {
    Run(s, actions[..k]).Some? && Adopts(Run(s, actions[..k]).value, actions[k], i)
  }

  /** Step k lets a thread of node i pass, and after it node i adopts nobody. */
  ghost predicate PassedLast(s: State, actions: seq<Action>, i: nat, k: int) {
    0 <= k < |actions| && PassesIn(s, actions, i, k) && forall m :: k < m < |actions| ==> !AdoptsIn(s, actions, i, m)
  }

  /** A gate is closed exactly if a thread has passed it since its node last adopted a leader. */
  lemma {:induction false} GateClosedExactly(s: State, actions: seq<Action>, i: nat)
    requires Run(s, actions).Some? && i < |s.nodes| && !s.nodes[i].started
    ensures |Run(s, actions).value.nodes| == |s.nodes|
    ensures Run(s, actions).value.nodes[i].started <==> exists k :: PassedLast(s, actions, i, k)
    decreases |actions|
  {
    if actions != [] {
      var last := |actions| - 1;
      GateClosedExactly(s, actions[..last], i);
      GateAfterStep(Run(s, actions[..last]).value, actions[last], i);
      if PassesIn(s, actions, i, last) {
        assert PassedLast(s, actions, i, last);
      } else {
        PassedLastShorter(s, actions, i);
      }
    }
  }

  lemma PassedLastShorter(s: State, actions: seq<Action>, i: nat)
    requires actions != [] && !PassesIn(s, actions, i, |actions| - 1)
    ensures var last := |actions| - 1;
      (exists k :: PassedLast(s, actions, i, k)) <==>
      (exists k :: PassedLast(s, actions[..last], i, k)) && !AdoptsIn(s, actions, i, last)
  {
    var last := |actions| - 1;
    if k :| PassedLast(s, actions, i, k) {
      PassedEarlier(s, actions, i, k);
    }
    if !AdoptsIn(s, actions, i, last) {
      if k :| PassedLast(s, actions[..last], i, k) {
        PassedEarlier(s, actions, i, k);
      }
    }
  }

  lemma PassedEarlier(s: State, actions: seq<Action>, i: nat, k: nat)
    requires k < |actions| - 1
    ensures var last := |actions| - 1;
      PassedLast(s, actions, i, k) <==> PassedLast(s, actions[..last], i, k) && !AdoptsIn(s, actions, i, last)
  {
    var before := actions[..|actions| - 1];
    forall m | 0 <= m < |before|
      ensures PassesIn(s, before, i, m) == PassesIn(s, actions, i, m)
      ensures AdoptsIn(s, before, i, m) == AdoptsIn(s, actions, i, m)
    {
      assert before[..m] == actions[..m];
    }
  }

  // ---- a gate that stays closed ----

  const MADE := Node(false, false, Some(0), Some(0), 2, 2)

  function LateScenes(): seq<State> {
    [State([IDLE, IDLE], [Start(0), Start(1)], 0),
     State([PASSED, IDLE], [Start(1), Passed(0)], 0),
     State([ROUND, IDLE], [Start(1), Announce(0, 0), Announce(0, 1)], 0),
     State([ROUND, TOLD], [Start(1), Announce(0, 0), Confirm(1, 0)], 0),
     State([ROUND, AGAIN], [Announce(0, 0), Confirm(1, 0), Passed(1)], 0),
     State([ROUND, AGAIN], [Announce(0, 0), Confirm(1, 0), Waiting(1, 0), Request(1, 0, 0)], 1),
     State([ROUND, AGAIN], [Announce(0, 0), Confirm(1, 0), Waiting(1, 0), Ok(1, 0), Start(0)], 1),
     State([ROUND, AGAIN], [Announce(0, 0), Confirm(1, 0), Waiting(1, 0), Ok(1, 0)], 1),
     State([ROUND, OnOk(AGAIN)], [Announce(0, 0), Confirm(1, 0), Waiting(1, 0)], 1),
     State([ROUND, OnOk(AGAIN)], [Announce(0, 0), Confirm(1, 0)], 1),
     State([ROUND, OnOk(AGAIN)], [Confirm(1, 0), Confirm(0, 0)], 1),
     State([ROUND.(received := 1), OnOk(AGAIN)], [Confirm(0, 0)], 1),
     State([MADE, OnOk(AGAIN)], [], 1)]
  }

  const LATE_PLAYS: seq<nat> := [0, 1, 2, 0, 2, 3, 4, 3, 2, 0, 0, 0]

  lemma FirstLateScenes(i: nat)
    requires i < 4
    ensures Fire(LateScenes()[i], LATE_PLAYS[i]) == Some(LateScenes()[i + 1])
  {
    var t, u := Fire(LateScenes()[i], LATE_PLAYS[i]).value, LateScenes()[i + 1];
    assert Announcements(0, 2) == [Announce(0, 0), Announce(0, 1)];
    assert t.nodes == u.nodes;
    assert t.bag == u.bag;
  }

  lemma NextLateScenes(i: nat)
    requires 4 <= i < 8
    ensures Fire(LateScenes()[i], LATE_PLAYS[i]) == Some(LateScenes()[i + 1])
  {
    var t, u := Fire(LateScenes()[i], LATE_PLAYS[i]).value, LateScenes()[i + 1];
    assert Requests(1, 0) == [Request(1, 0, 0)];
    assert t.nodes == u.nodes;
    assert t.bag == u.bag;
  }

  lemma LastLateScenes(i: nat)
    requires 8 <= i < 12
    ensures Fire(LateScenes()[i], LATE_PLAYS[i]) == Some(LateScenes()[i + 1])
  {
    var t, u := Fire(LateScenes()[i], LATE_PLAYS[i]).value, LateScenes()[i + 1];
    assert t.nodes == u.nodes;
    assert t.bag == u.bag;
  }

  lemma LateSceneFollows(i: nat)
    requires i < 12
    ensures Fire(LateScenes()[i], LATE_PLAYS[i]) == Some(LateScenes()[i + 1])
  {
    if i < 4 {
      FirstLateScenes(i);
    } else if i < 8 {
      NextLateScenes(i);
    } else {
      LastLateScenes(i);
    }
  }

  /** No thread waits when a thread of the node clears the flag. */
  lemma LateSceneIsSafe(i: nat)
    requires i < 12
    ensures SafeClear(LateScenes()[i], Act(LATE_PLAYS[i]))
  {
  }

  lemma {:induction false} LateRunIsSafe(i: nat)
    requires i <= 12
    ensures Run(LateScenes()[0], Acts(LATE_PLAYS[..i])) == Some(LateScenes()[i])
    ensures SafeRun(LateScenes()[0], Acts(LATE_PLAYS[..i]))
  {
    if i > 0 {
      LateRunIsSafe(i - 1);
      LateSceneFollows(i - 1);
      LateSceneIsSafe(i - 1);
      assert Acts(LATE_PLAYS[..i])[..i - 1] == Acts(LATE_PLAYS[..i - 1]);
    }
  }

  /** At rest, in agreement, and node 1 has its gate closed. */
  predicate LeftClosed(t: State) {
    && t.bag == [] && |t.nodes| > 1 && t.nodes[1].started
    && forall i :: 0 <= i < |t.nodes| ==> t.nodes[i].leader == Some(0)
  }

  ghost predicate LeavesClosed(s: State, actions: seq<Action>) {
    Init(s) && Run(s, actions).Some? && SafeRun(s, actions) && LeftClosed(Run(s, actions).value)
  }

  lemma LastSceneIsClosed()
    ensures Init(LateScenes()[0]) && LeftClosed(LateScenes()[12])
  {
    var t := LateScenes()[12];
    assert t.nodes == [MADE, OnOk(AGAIN)];
  }

  /** An election can end in agreement and leave a gate closed.  Two members start; node 0 announces
      itself; node 1 has just been told when its own thread passes the gate.  Node 0 does not heed the
      request, as it is still collecting confirmations. */
  lemma GateStaysClosed()
    ensures exists s, actions :: LeavesClosed(s, actions)
  {
    LateRunIsSafe(12);
    var actions := Acts(LATE_PLAYS[..12]);
    LastSceneIsClosed();
    assert LeavesClosed(LateScenes()[0], actions);
  }

  // ---- what a closed gate at the minimum means ----

  /** The gate of the minimum is closed, and nobody is behind it or in a round. */
  ghost predicate Quelled(s: State) {
    && |s.nodes| > 0 && s.nodes[0].started && TokensOk(s) && ThreadsOk(s)
    && forall t :: t in s.bag ==> t != Passed(0) && !t.Announce? && !t.Confirm?
  }

  /** The same state with that gate open, as far as threads and tokens go. */
  function Reopened(s: State): State
    requires |s.nodes| > 0
  {
    s.(nodes := s.nodes[0 := s.nodes[0].(started := false, leader := None)])
  }

  lemma ReopenedIsGood(s: State)
    requires Quelled(s)
    ensures Inv(Reopened(s))
  {
    var r := Reopened(s);
    forall i: nat ensures Copies(r.bag, i) == 0 {
      assert Announce(0, i) !in s.bag && Confirm(i, 0) !in s.bag;
    }
    assert Passed(0) !in r.bag;
    forall i: nat, thread: nat | Waiting(i, thread) in r.bag && i < |r.nodes| ensures ThreadOk(r, i, thread) {
      assert ThreadOk(s, i, thread);
    }
  }

  /** Tokens other than a thread at that gate act as if it were open, and leave it closed. */
  lemma ActsAsReopened(s: State, k: nat)
    requires Quelled(s) && Fire(s, k).Some? && s.bag[k] != Start(0)
    ensures Fire(Reopened(s), k).Some?
    ensures Fire(s, k).value.nodes[1..] == Fire(Reopened(s), k).value.nodes[1..]
    ensures Fire(s, k).value.bag == Fire(Reopened(s), k).value.bag
    ensures Fire(s, k).value.threads == Fire(Reopened(s), k).value.threads
    ensures |Fire(s, k).value.nodes| == |s.nodes| && Fire(s, k).value.nodes[0] == s.nodes[0]
  {
    assert s.bag[k] in s.bag;
    assert TokenOk(s.bag[k], |s.nodes|, s.threads);
  }

  lemma StaysQuelled(s: State, k: nat)
    requires Quelled(s) && SafeClear(s, Act(k)) && Fire(s, k).Some?
    ensures Quelled(Fire(s, k).value)
  {
    if s.bag[k] == Start(0) {
      Removed(s, k, []);
      assert Without(s.bag, k) + [] == Without(s.bag, k);
      KeepThreads(s, k, [], Fire(s, k).value);
    } else {
      var r, t := Reopened(s), Fire(s, k).value;
      ReopenedIsGood(s);
      ActsAsReopened(s, k);
      FireKeepsInv(r, k);
      NothingAnnounced(s, k);
      forall i: nat, thread: nat | Waiting(i, thread) in t.bag && i < |t.nodes| ensures ThreadOk(t, i, thread) {
        assert TokenOk(Waiting(i, thread), |t.nodes|, t.threads);
        assert ThreadOk(Fire(r, k).value, i, thread);
        assert t.nodes[i] == t.nodes[1..][i - 1];
      }
    }
  }

  lemma NothingAnnounced(s: State, k: nat)
    requires Quelled(s) && SafeClear(s, Act(k)) && Fire(s, k).Some? && s.bag[k] != Start(0)
    ensures forall t :: t in Fire(s, k).value.bag ==> t != Passed(0) && !t.Announce? && !t.Confirm?
  {
    assert s.bag[k] in s.bag;
    WithoutFacts(s.bag, k);
    if s.bag[k].Waiting? {
      ReopenedIsGood(s);
      ActsAsReopened(s, k);
      FireWaiting(Reopened(s), k);
    } else if s.bag[k].Passed? {
      RequestsFacts(s.bag[k].node, s.threads);
    }
  }

  /** Nobody is elected.  If the gate of the minimum is closed while nobody is behind it or in a round,
      then whatever is triggered from there, in every safe run, nobody ever announces himself and no
      node changes its leader.  This is the state of node 1 above when node 0 has failed. */
  lemma {:induction false} NobodyIsElected(s: State, actions: seq<Action>)
    requires Quelled(s) && Run(s, actions).Some? && SafeRun(s, actions)
    ensures var t := Run(s, actions).value;
      && Quelled(t) && |t.nodes| == |s.nodes|
      && forall i :: 0 <= i < |s.nodes| ==> t.nodes[i].leader == s.nodes[i].leader
    decreases |actions|
  {
    if actions != [] {
      var before, a := actions[..|actions| - 1], actions[|actions| - 1];
      NobodyIsElected(s, before);
      var u := Run(s, before).value;
      if a.Act? {
        StaysQuelled(u, a.k);
        LeadersStay(u, a.k);
      } else {
        TriggerStaysQuelled(u, a.i);
      }
    }
  }

  lemma LeadersStay(s: State, k: nat)
    requires Quelled(s) && Fire(s, k).Some?
    ensures |Fire(s, k).value.nodes| == |s.nodes|
    ensures forall i :: 0 <= i < |s.nodes| ==> Fire(s, k).value.nodes[i].leader == s.nodes[i].leader
  {
    assert s.bag[k] in s.bag;
  }

  lemma TriggerStaysQuelled(s: State, i: nat)
    requires Quelled(s) && i < |s.nodes|
    ensures Quelled(s.(bag := s.bag + [Start(i)]))
  {
    ReopenedIsGood(s);
    TriggerKeepsInv(Reopened(s), i);
    var r, t := Reopened(s), s.(bag := s.bag + [Start(i)]);
    forall j: nat, thread: nat | Waiting(j, thread) in t.bag && j < |t.nodes| ensures ThreadOk(t, j, thread) {
      assert Waiting(j, thread) in s.bag;
      assert ThreadOk(r.(bag := r.bag + [Start(i)]), j, thread);
    }
  }

  /** The members that are left when the minimum fails at rest. */
  function Survivors(t: State): State
    requires |t.nodes| > 1
  {
    State(t.nodes[1..], [], t.threads)
  }

  /** So after the run above nobody succeeds node 0. */
  lemma NobodySucceeds(s: State, actions: seq<Action>, more: seq<Action>)
    requires LeavesClosed(s, actions)
    requires Run(Survivors(Run(s, actions).value), more).Some? && SafeRun(Survivors(Run(s, actions).value), more)
    ensures forall leader, i :: Announce(leader, i) !in Run(Survivors(Run(s, actions).value), more).value.bag
  {
    var left := Survivors(Run(s, actions).value);
    assert Quelled(left);
    NobodyIsElected(left, more);
  }

  // ---- which elections succeed ----

  /** Nothing but threads in front of closed gates. */
  ghost predicate Barred(s: State) {
    forall t :: t in s.bag ==> t.Start? && t.node < |s.nodes| && s.nodes[t.node].started
  }

  lemma {:induction false} BarredStays(s: State, actions: seq<Action>)
    requires Barred(s) && NoTrigger(actions) && Run(s, actions).Some?
    ensures Barred(Run(s, actions).value) && Run(s, actions).value.nodes == s.nodes
    decreases |actions|
  {
    if actions != [] {
      var before, a := actions[..|actions| - 1], actions[|actions| - 1];
      BarredStays(s, before);
      var u := Run(s, before).value;
      assert a in actions;
      assert u.bag[a.k] in u.bag;
      WithoutFacts(u.bag, a.k);
    }
  }

  /** Triggers at rest, exactly: if the gate of the minimum is open and so is that of some node that was
      triggered, every safe run that cannot go on ends with everybody holding the minimum as leader;
      otherwise no safe run changes any leader. */
  lemma TriggersSucceedExactly(s: State, actions: seq<Action>)
    requires AtRest(s) && NoTrigger(actions) && Run(s, actions).Some? && SafeRun(s, actions)
    ensures var t := Run(s, actions).value;
      && |t.nodes| == |s.nodes|
      && (if !s.nodes[0].started && Heeded(s)
          then (forall k :: !CanAct(t, k)) ==> forall i :: 0 <= i < |t.nodes| ==> t.nodes[i].leader == Some(0)
          else forall i :: 0 <= i < |t.nodes| ==> t.nodes[i].leader == s.nodes[i].leader)
  {
    CascadeEnds(s, actions);
    if s.nodes[0].started {
      assert Quelled(s);
      NobodyIsElected(s, actions);
    } else if Heeded(s) {
      ElectionsEndInAgreement(s, actions);
    } else {
      forall t | t in s.bag ensures s.nodes[t.node].started {
        assert !Heeding(s, t.node);
      }
      BarredStays(s, actions);
    }
  }
}
