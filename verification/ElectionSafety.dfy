/** Who can become leader, in every run: only the minimum announces itself, and it believes in
    itself only after everybody else does. */
module ElectionSafety {
  import opened Options
  import opened Election

  // ---- bags ----

  lemma WithoutFacts(bag: seq<Token>, k: nat)
    requires k < |bag|
    ensures multiset(bag) == multiset(Without(bag, k)) + multiset{bag[k]}
    ensures forall t :: t in Without(bag, k) ==> t in bag
    ensures forall t :: t in bag && t != bag[k] ==> t in Without(bag, k)
  {
    assert bag == bag[..k] + [bag[k]] + bag[k + 1..];
  }

  // ---- the invariant ----

  /** Tokens name existing nodes; only non-minimal nodes ask, only the minimum announces. */
  predicate TokenOk(t: Token, n: nat, threads: nat) {
    t.node < n &&
    match t
    case Start(_) => true
    case Passed(_) => true
    case Waiting(i, thread) => i > 0 && thread < threads
    case Request(from, thread, i) => i < from < n && thread < threads
    case Ok(i, thread) => i > 0 && thread < threads
    case Announce(leader, _) => leader == 0
    case Confirm(from, i) => from < n && i == 0
  }

  ghost predicate TokensOk(s: State) {
    forall t :: t in s.bag ==> TokenOk(t, |s.nodes|, s.threads)
  }

  /** A thread joining its requests will find okReceived set. */
  ghost predicate ThreadsOk(s: State) {
    forall i: nat, thread: nat :: Waiting(i, thread) in s.bag && i < |s.nodes| ==> ThreadOk(s, i, thread)
  }

  ghost predicate ThreadOk(s: State, i: nat, thread: nat)
    requires i < |s.nodes|
  {
    s.nodes[i].okReceived || Outstanding(s.bag, i, thread)
  }

  /** Node i has still to confirm the current round. */
  predicate OpenAt(bag: seq<Token>, i: nat) {
    Announce(0, i) in bag || Confirm(i, 0) in bag
  }

  function Open(s: State): set<nat> {
    set i: nat | 0 <= i < |s.nodes| && OpenAt(s.bag, i)
  }

  function Copies(bag: seq<Token>, i: nat): nat {
    multiset(bag)[Announce(0, i)] + multiset(bag)[Confirm(i, 0)]
  }

  /** The minimum has announced itself and not yet received all confirmations. */
  predicate InRound(s: State)
    requires |s.nodes| > 0
  {
    s.nodes[0].started && Passed(0) !in s.bag
  }

  /** One thread of the minimum at most is behind the gate.  Confirmations are counted per round:
      in a round every node owes at most one, and what has been received plus what is owed is n;
      outside of a round nothing is owed. */
  ghost predicate RoundOk(s: State)
    requires |s.nodes| > 0
  {
    var m := s.nodes[0];
    multiset(s.bag)[Passed(0)] <= (if m.started then 1 else 0) &&
    (forall i: nat :: Copies(s.bag, i) <= if InRound(s) then 1 else 0) &&
    (InRound(s) ==> m.expected == |s.nodes| && m.received + |Open(s)| == |s.nodes| && m.received < |s.nodes|)
  }

  ghost predicate LeadersOk(s: State)
    requires |s.nodes| > 0
  {
    (InRound(s) ==>
      forall i :: 0 < i < |s.nodes| ==> Announce(0, i) in s.bag || s.nodes[i].leader == Some(0)) &&
    (s.nodes[0].leader == Some(0) ==>
      forall i :: 0 < i < |s.nodes| ==> s.nodes[i].leader == Some(0))
  }

  ghost predicate Inv(s: State) {
    |s.nodes| > 0 && TokensOk(s) && ThreadsOk(s) && RoundOk(s) && LeadersOk(s)
  }

  // ---- preservation, token by token ----

  /** A step that touches no announcement, no confirmation, no thread of the minimum behind the
      gate and no leader does not matter to the round. */
  lemma RoundIgnores(s: State, t: State)
    requires |s.nodes| > 0 && |t.nodes| == |s.nodes| && RoundOk(s) && LeadersOk(s)
    requires t.nodes[0] == s.nodes[0].(okReceived := t.nodes[0].okReceived)
    requires forall i :: 0 <= i < |s.nodes| ==> t.nodes[i].leader == s.nodes[i].leader
    requires SameRoundTokens(s.bag, t.bag)
    ensures RoundOk(t) && LeadersOk(t)
  {
    forall i: nat
      ensures Announce(0, i) in t.bag <==> Announce(0, i) in s.bag
      ensures OpenAt(t.bag, i) == OpenAt(s.bag, i) && Copies(t.bag, i) == Copies(s.bag, i)
    {
      SameMembership(s.bag, t.bag, Announce(0, i));
      SameMembership(s.bag, t.bag, Confirm(i, 0));
    }
    SameMembership(s.bag, t.bag, Passed(0));
    assert Open(t) == Open(s);
  }

  ghost predicate SameRoundTokens(bag: seq<Token>, after: seq<Token>) {
    multiset(after)[Passed(0)] == multiset(bag)[Passed(0)] &&
    forall i: nat :: multiset(after)[Announce(0, i)] == multiset(bag)[Announce(0, i)]
                  && multiset(after)[Confirm(i, 0)] == multiset(bag)[Confirm(i, 0)]
  }

  lemma SameMembership(bag: seq<Token>, after: seq<Token>, t: Token)
    requires multiset(after)[t] == multiset(bag)[t]
    ensures t in after <==> t in bag
  {
    assert t in after <==> t in multiset(after);
    assert t in bag <==> t in multiset(bag);
  }

  lemma {:induction false} AnnouncedOnce(n: nat)
    ensures forall i: nat :: multiset(Announcements(0, n))[Announce(0, i)] == if i < n then 1 else 0
    ensures forall t :: t in Announcements(0, n) <==> t.Announce? && t.leader == 0 && t.node < n
  {
    if n > 0 {
      AnnouncedOnce(n - 1);
      assert Announcements(0, n) == Announcements(0, n - 1) + [Announce(0, n - 1)];
    }
  }

  lemma RequestsFacts(from: nat, thread: nat)
    ensures forall t :: t in Requests(from, thread) <==>
        t.Request? && t.from == from && t.thread == thread && t.node < from
  {
    forall t: Token | t.Request? && t.from == from && t.thread == thread && t.node < from
      ensures t in Requests(from, thread)
    {
      assert Requests(from, thread)[t.node] == t;
    }
  }

  /** What Fire leaves in the bag, as a multiset. */
  lemma Removed(s: State, k: nat, added: seq<Token>)
    requires k < |s.bag|
    ensures multiset(Without(s.bag, k) + added) == multiset(s.bag) - multiset{s.bag[k]} + multiset(added)
    ensures forall t :: t in Without(s.bag, k) + added ==> t in s.bag || t in added
    ensures forall t :: t in s.bag && t != s.bag[k] ==> t in Without(s.bag, k) + added
    ensures forall t :: t in added ==> t in Without(s.bag, k) + added
  {
    WithoutFacts(s.bag, k);
  }

  /** A thread that waits for a token that is not acting keeps waiting for it. */
  lemma StillOutstanding(s: State, k: nat, added: seq<Token>, i: nat, thread: nat)
    requires k < |s.bag| && Outstanding(s.bag, i, thread)
    requires s.bag[k].Ok? ==> (s.bag[k].node, s.bag[k].thread) != (i, thread)
    requires s.bag[k].Request? ==> Ok(s.bag[k].from, s.bag[k].thread) in added
    ensures Outstanding(Without(s.bag, k) + added, i, thread)
  {
    Removed(s, k, added);
    var after := Without(s.bag, k) + added;
    if Ok(i, thread) !in s.bag {
      var q :| Request(i, thread, q) in s.bag;
      assert Request(i, thread, q) in after || Ok(i, thread) in added;
    }
  }

  lemma FireRequest(s: State, k: nat)
    requires Inv(s) && k < |s.bag| && s.bag[k].Request? && Fire(s, k).Some?
    ensures Inv(Fire(s, k).value)
  {
    var Request(from, thread, i) := s.bag[k];
    assert TokenOk(s.bag[k], |s.nodes|, s.threads) by { assert s.bag[k] in s.bag; }
    var added := [Ok(from, thread), Start(i)];
    Removed(s, k, added);
    var t := Fire(s, k).value;
    RoundIgnores(s, t);
    forall j: nat, h: nat | Waiting(j, h) in t.bag && j < |t.nodes| ensures ThreadOk(t, j, h) {
      assert Waiting(j, h) in s.bag;
      if !s.nodes[j].okReceived {
        StillOutstanding(s, k, added, j, h);
      }
    }
  }

  lemma FireOk(s: State, k: nat)
    requires Inv(s) && k < |s.bag| && s.bag[k].Ok? && Fire(s, k).Some?
    ensures Inv(Fire(s, k).value)
  {
    var Ok(i, thread) := s.bag[k];
    Removed(s, k, []);
    assert Without(s.bag, k) + [] == Without(s.bag, k);
    var t := Fire(s, k).value;
    RoundIgnores(s, t);
    forall j: nat, h: nat | Waiting(j, h) in t.bag && j < |t.nodes| ensures ThreadOk(t, j, h) {
      assert Waiting(j, h) in s.bag;
      if !t.nodes[j].okReceived {
        StillOutstanding(s, k, [], j, h);
      }
    }
  }

  /** The branch in which a node names itself leader for want of an OK is dead. */
  lemma FireWaiting(s: State, k: nat)
    requires Inv(s) && k < |s.bag| && s.bag[k].Waiting? && Fire(s, k).Some?
    ensures Fire(s, k).value == s.(bag := Without(s.bag, k))
    ensures Inv(Fire(s, k).value)
  {
    var Waiting(i, thread) := s.bag[k];
    assert Waiting(i, thread) in s.bag;
    Removed(s, k, []);
    assert Without(s.bag, k) + [] == Without(s.bag, k);
    assert ThreadOk(s, i, thread);
    if !s.nodes[i].okReceived {
      StillOutstanding(s, k, [], i, thread);
    }
    var t := Fire(s, k).value;
    RoundIgnores(s, t);
    forall j: nat, h: nat | Waiting(j, h) in t.bag && j < |t.nodes| ensures ThreadOk(t, j, h) {
      assert Waiting(j, h) in s.bag;
      if !t.nodes[j].okReceived {
        StillOutstanding(s, k, [], j, h);
      }
    }
  }

  // ---- a thread reaching the gate ----

  lemma KeepThreads(s: State, k: nat, added: seq<Token>, t: State)
    requires TokensOk(s) && ThreadsOk(s) && k < |s.bag| && !s.bag[k].Ok? && !s.bag[k].Request?
    requires t.bag == Without(s.bag, k) + added && |t.nodes| == |s.nodes|
    requires forall x :: x in added ==> !x.Waiting?
    requires forall i :: 0 <= i < |s.nodes| ==> t.nodes[i].okReceived == s.nodes[i].okReceived
    ensures ThreadsOk(t)
  {
    Removed(s, k, added);
    forall j: nat, h: nat | Waiting(j, h) in t.bag && j < |t.nodes| ensures ThreadOk(t, j, h) {
      assert Waiting(j, h) in s.bag;
      if !s.nodes[j].okReceived {
        StillOutstanding(s, k, added, j, h);
      }
    }
  }

  lemma BlockedAtGate(s: State, k: nat)
    requires Inv(s) && k < |s.bag| && s.bag[k].Start? && Fire(s, k).Some?
    requires s.nodes[s.bag[k].node].started
    ensures Inv(Fire(s, k).value)
  {
    Removed(s, k, []);
    assert Without(s.bag, k) + [] == Without(s.bag, k);
    RoundIgnores(s, Fire(s, k).value);
    KeepThreads(s, k, [], Fire(s, k).value);
  }

  /** A thread passes the gate of a node; at the minimum, it is then the only one behind it. */
  lemma PassesGate(s: State, k: nat)
    requires Inv(s) && k < |s.bag| && s.bag[k].Start? && Fire(s, k).Some?
    requires !s.nodes[s.bag[k].node].started
    ensures Inv(Fire(s, k).value)
  {
    var i, t := s.bag[k].node, Fire(s, k).value;
    Removed(s, k, [Passed(i)]);
    KeepThreads(s, k, [Passed(i)], t);
    if i == 0 {
      MinimumPasses(s, t);
    } else {
      RoundIgnores(s, t);
    }
  }

  lemma MinimumPasses(s: State, t: State)
    requires |s.nodes| > 0 && RoundOk(s) && LeadersOk(s) && !s.nodes[0].started
    requires t.nodes == s.nodes[0 := Pass(s.nodes[0])]
    requires multiset(t.bag) == multiset(s.bag) - multiset{Start(0)} + multiset{Passed(0)}
    ensures RoundOk(t) && LeadersOk(t)
  {
    assert Passed(0) in multiset(t.bag);
    forall i: nat ensures Copies(t.bag, i) == 0 {
      assert Copies(s.bag, i) == 0;
    }
  }

  function Everyone(n: nat): set<nat> {
    if n == 0 then {} else Everyone(n - 1) + {n - 1}
  }

  lemma {:induction false} EveryoneCounted(n: nat)
    ensures |Everyone(n)| == n && forall i: nat :: i in Everyone(n) <==> i < n
  {
    if n > 0 {
      EveryoneCounted(n - 1);
    }
  }

  /** The minimum opens a new round: everybody owes it one confirmation. */
  lemma RoundOpens(s: State, k: nat)
    requires Inv(s) && k < |s.bag| && s.bag[k] == Passed(0) && Fire(s, k).Some?
    ensures Inv(Fire(s, k).value)
  {
    var n, t := |s.nodes|, Fire(s, k).value;
    AnnouncedOnce(n);
    Removed(s, k, Announcements(0, n));
    KeepThreads(s, k, Announcements(0, n), t);
    assert Passed(0) in s.bag;
    EverybodyOwes(s, t);
  }

  lemma EverybodyOwes(s: State, t: State)
    requires |s.nodes| > 0 && RoundOk(s) && LeadersOk(s) && Passed(0) in s.bag
    requires t.nodes == s.nodes[0 := Proceed(s.nodes[0], 0, |s.nodes|)]
    requires multiset(t.bag) == multiset(s.bag) - multiset{Passed(0)} + multiset(Announcements(0, |s.nodes|))
    ensures RoundOk(t) && LeadersOk(t)
  {
    var n := |s.nodes|;
    AnnouncedOnce(n);
    assert Passed(0) in multiset(s.bag);
    assert Passed(0) !in Announcements(0, n);
    assert Passed(0) !in multiset(t.bag);
    forall i: nat
      ensures Copies(t.bag, i) == if i < n then 1 else 0
      ensures i < n ==> Announce(0, i) in t.bag
    {
      assert Copies(s.bag, i) == 0;
      assert Confirm(i, 0) !in Announcements(0, n);
      assert Announce(0, i) in t.bag <==> multiset(t.bag)[Announce(0, i)] > 0;
    }
    EveryoneCounted(n);
    assert Open(t) == Everyone(n);
  }

  /** Another node clears its flag and asks everybody below it. */
  lemma NodeAsks(s: State, k: nat)
    requires Inv(s) && Clears(s, k) && SafeClear(s, Act(k))
    ensures Fire(s, k).Some? && Inv(Fire(s, k).value)
  {
    var i, n, t := s.bag[k].node, |s.nodes|, Fire(s, k).value;
    var added := Proceeds(i, n, s.threads);
    RequestsFacts(i, s.threads);
    Removed(s, k, added);
    AskingIsNoRound(i, s.threads);
    RoundIgnores(s, t);
    forall j: nat, h: nat | Waiting(j, h) in t.bag && j < n ensures ThreadOk(t, j, h) {
      ThreadsStayCertain(s, k, j, h);
    }
  }

  lemma ThreadsStayCertain(s: State, k: nat, j: nat, h: nat)
    requires Inv(s) && Clears(s, k) && SafeClear(s, Act(k)) && j < |s.nodes|
    requires Waiting(j, h) in Fire(s, k).value.bag
    ensures ThreadOk(Fire(s, k).value, j, h)
  {
    var i, t := s.bag[k].node, Fire(s, k).value;
    var added := Proceeds(i, |s.nodes|, s.threads);
    RequestsFacts(i, s.threads);
    Removed(s, k, added);
    if Waiting(j, h) in added {
      assert Request(i, h, 0) in t.bag;
    } else {
      OthersStayCertain(s, k, j, h);
    }
  }

  /** Clearing the flag leaves the waiting threads certain of an OK. */
  lemma OthersStayCertain(s: State, k: nat, j: nat, h: nat)
    requires Inv(s) && Clears(s, k) && SafeClear(s, Act(k)) && Waiting(j, h) in s.bag && j < |s.nodes|
    ensures ThreadOk(Fire(s, k).value, j, h)
  {
    var added := Proceeds(s.bag[k].node, |s.nodes|, s.threads);
    assert ThreadOk(s, j, h);
    if !Fire(s, k).value.nodes[j].okReceived {
      StillOutstanding(s, k, added, j, h);
    }
  }

  lemma AskingIsNoRound(i: nat, thread: nat)
    requires i > 0
    ensures forall x :: x in [Waiting(i, thread)] + Requests(i, thread) ==> x.Waiting? || x.Request?
    ensures forall x :: multiset([Waiting(i, thread)] + Requests(i, thread))[x] > 0 ==> x.Waiting? || x.Request?
  {
    RequestsFacts(i, thread);
    var added := [Waiting(i, thread)] + Requests(i, thread);
    forall x | multiset(added)[x] > 0 ensures x in added {
    }
  }

  // ---- announcements and confirmations ----

  lemma FireAnnounce(s: State, k: nat)
    requires Inv(s) && k < |s.bag| && s.bag[k].Announce? && Fire(s, k).Some?
    ensures Inv(Fire(s, k).value)
  {
    var i, t := s.bag[k].node, Fire(s, k).value;
    assert s.bag[k] in s.bag && s.bag[k] == Announce(0, i);
    var added := [Confirm(i, 0)];
    Removed(s, k, added);
    KeepThreads(s, k, added, t);
    AnswerOwed(s, t, i);
  }

  /** Turning an announcement into a confirmation keeps what is owed. */
  lemma AnswerOwed(s: State, t: State, i: nat)
    requires i < |s.nodes| && RoundOk(s) && LeadersOk(s) && Announce(0, i) in s.bag
    requires t.nodes == s.nodes[i := OnAnnounce(s.nodes[i], i, 0)]
    requires multiset(t.bag) == multiset(s.bag) - multiset{Announce(0, i)} + multiset{Confirm(i, 0)}
    ensures RoundOk(t) && LeadersOk(t)
  {
    assert multiset(s.bag)[Announce(0, i)] > 0;
    assert Copies(s.bag, i) == 1;
    forall j: nat
      ensures OpenAt(t.bag, j) == OpenAt(s.bag, j) && Copies(t.bag, j) == Copies(s.bag, j)
      ensures j != i ==> (Announce(0, j) in t.bag <==> Announce(0, j) in s.bag)
    {
      assert Announce(0, j) in t.bag <==> multiset(t.bag)[Announce(0, j)] > 0;
      assert Announce(0, j) in s.bag <==> multiset(s.bag)[Announce(0, j)] > 0;
      assert Confirm(j, 0) in t.bag <==> multiset(t.bag)[Confirm(j, 0)] > 0;
      assert Confirm(j, 0) in s.bag <==> multiset(s.bag)[Confirm(j, 0)] > 0;
    }
    assert Open(t) == Open(s);
    assert t.nodes[0] == s.nodes[0];
  }

  lemma FireConfirm(s: State, k: nat)
    requires Inv(s) && k < |s.bag| && s.bag[k].Confirm? && Fire(s, k).Some?
    ensures Inv(Fire(s, k).value)
  {
    var f, t := s.bag[k].from, Fire(s, k).value;
    assert s.bag[k] in s.bag && s.bag[k] == Confirm(f, 0) && f < |s.nodes|;
    Removed(s, k, []);
    assert Without(s.bag, k) + [] == Without(s.bag, k);
    KeepThreads(s, k, [], t);
    DebtPaid(s, t, f);
  }

  /** Node f pays what it owes; the last payment closes the round. */
  lemma DebtPaid(s: State, t: State, f: nat)
    requires f < |s.nodes| && TokensOk(s) && RoundOk(s) && LeadersOk(s) && Confirm(f, 0) in s.bag
    requires t.nodes == s.nodes[0 := OnConfirm(s.nodes[0], 0)]
    requires multiset(t.bag) == multiset(s.bag) - multiset{Confirm(f, 0)}
    requires forall x :: x in t.bag ==> x in s.bag
    ensures RoundOk(t) && LeadersOk(t)
  {
    assert multiset(s.bag)[Confirm(f, 0)] > 0;
    assert Copies(s.bag, f) == 1;
    forall j: nat
      ensures OpenAt(t.bag, j) == (OpenAt(s.bag, j) && j != f)
      ensures Copies(t.bag, j) == if j == f then 0 else Copies(s.bag, j)
      ensures Announce(0, j) in t.bag <==> Announce(0, j) in s.bag
    {
      assert Announce(0, j) in t.bag <==> multiset(t.bag)[Announce(0, j)] > 0;
      assert Announce(0, j) in s.bag <==> multiset(s.bag)[Announce(0, j)] > 0;
      assert Confirm(j, 0) in t.bag <==> multiset(t.bag)[Confirm(j, 0)] > 0;
      assert Confirm(j, 0) in s.bag <==> multiset(s.bag)[Confirm(j, 0)] > 0;
    }
    assert f in Open(s) && Open(t) == Open(s) - {f};
    RoundCloses(s, t);
  }

  lemma RoundCloses(s: State, t: State)
    requires |s.nodes| > 0 && TokensOk(s) && RoundOk(s) && LeadersOk(s) && InRound(s) && Passed(0) !in t.bag
    requires t.nodes == s.nodes[0 := OnConfirm(s.nodes[0], 0)]
    requires forall x :: x in t.bag ==> x in s.bag
    requires forall j: nat :: Copies(t.bag, j) <= Copies(s.bag, j)
    requires forall j: nat :: Announce(0, j) in t.bag <==> Announce(0, j) in s.bag
    requires |Open(t)| == |Open(s)| - 1
    ensures RoundOk(t) && LeadersOk(t)
  {
    if s.nodes[0].received + 1 == |s.nodes| {
      assert |Open(t)| == 0;
      forall j: nat ensures Copies(t.bag, j) == 0 && Announce(0, j) !in t.bag {
        NothingOwed(s, t, j);
      }
    }
  }

  lemma NothingOwed(s: State, t: State, j: nat)
    requires TokensOk(s) && |t.nodes| == |s.nodes| && |Open(t)| == 0
    requires forall x :: x in t.bag ==> x in s.bag
    ensures Copies(t.bag, j) == 0 && Announce(0, j) !in t.bag
  {
    if j < |s.nodes| {
      assert j !in Open(t);
    } else {
      assert Announce(0, j) !in s.bag && Confirm(j, 0) !in s.bag;
    }
    assert Announce(0, j) !in t.bag && Confirm(j, 0) !in t.bag;
  }
}
