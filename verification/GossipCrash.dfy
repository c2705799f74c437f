/** A crashed member that somebody has removed is not taken back by anybody. */
module GossipCrash {
  import opened Options
  import opened Gossip
  import opened GossipTimed

  /** Silence after which a record is no longer passed on, and after which it is removed: the
      comparisons are made in whole milliseconds, so both need one millisecond more. */
  const SUSPECT := (T_FAIL + 1) * NANOS_PER_MILLI
  const REMOVE := (T_FAIL + T_CLEANUP + 1) * NANOS_PER_MILLI

  lemma TimeoutsInNanos(r: Record, now: int)
    ensures IsTimedOut(r, now) <==> now - r.last >= SUSPECT
    ensures ShouldBeCleanUp(r, now) <==> now - r.last >= REMOVE && !r.leaving
    ensures SUSPECT == 2_001_000_000 && REMOVE == 4_001_000_000
  {
  }

  /** What a round keeps of a table, and what its heartbeat says: a member that is leaving in any
      case, any other one as long as it has been heard of recently enough. */
  lemma KeptAndReported(table: Table, now: int, j: nat)
    ensures j in Clean(table, now) <==> j in table && (table[j].leaving || now - table[j].last < 4_001_000_000)
    ensures j in Clean(table, now) ==> Clean(table, now)[j] == table[j]
    ensures j in Beat(table, now) <==> j in table && (table[j].leaving || now - table[j].last < 2_001_000_000)
    ensures j in Beat(table, now) ==> Beat(table, now)[j] == table[j]
  {
    if j in table {
      TimeoutsInNanos(table[j], now);
    }
  }

  /** Record r of the crashed member was raised for the last time inside the window. */
  predicate InWindow(r: Record, opens: int, window: int) {
    opens <= r.last <= opens + window
  }

  /** A heartbeat that mentions m was sent before m became suspect, and it is at most delay old. */
  ghost predicate Fresh(net: seq<Packet>, m: nat, now: int, opens: int, window: int, delay: int) {
    forall x :: x in net && m in x.beat ==> x.sentAt < opens + window + SUSPECT && now <= x.sentAt + delay
  }

  /** m has crashed; every record of it dates from the window; whoever removed it did so after
      the full silence and does not hold it. */
  ghost predicate Fading(s: Group, m: nat, opens: int, window: int, delay: int) {
    && WellFormed(s) && m < |s.peers| && !s.peers[m].alive && s.now >= opens
    && Fresh(s.net, m, s.now, opens, window, delay)
    && forall k :: 0 <= k < |s.peers| && s.peers[k].alive ==> PeerFading(s, k, m, opens, window, delay)
  }

  ghost predicate PeerFading(s: Group, k: nat, m: nat, opens: int, window: int, delay: int)
    requires k < |s.peers|
  {
    && (m in s.peers[k].table ==> InWindow(s.peers[k].table[m], opens, window))
    && Fresh(s.peers[k].queue, m, s.now, opens, window, delay)
    && ((k, m) in s.dropped ==> s.now >= opens + REMOVE && m !in s.peers[k].table)
  }

  /** Tick i raises or adds the record of m. */
  ghost predicate Touches(s: Group, i: nat, m: nat)
    requires WellFormed(s) && i < |s.peers|
  {
    var v := s.peers[i];
    var r := Merged(v.table, i, v.queue, s.now);
    m in r && (m !in v.table || r[m] != v.table[m])
  }

  /** What is assumed of the run: gossip is merged within `delay` of being sent, and members that
      have not removed m stop raising its record when the window closes.  Nothing is assumed about
      members that have removed it. */
  ghost predicate Timely(s: Group, a: Action, m: nat, opens: int, window: int, delay: int)
    requires WellFormed(s)
  {
    match a
    case Tick(i, receivers) =>
      i < |s.peers| && (i, m) !in s.dropped && Touches(s, i, m) ==> s.now <= opens + window
    case Arrive(p) => true
    case Lose(p) => true
    case Crash(i) => true
    case Advance(to) =>
      && Fresh(s.net, m, to, opens, window, delay)
      && forall k :: 0 <= k < |s.peers| && s.peers[k].alive ==> Fresh(s.peers[k].queue, m, to, opens, window, delay)
  }

  /** Once somebody has removed m, no heartbeat that mentions m exists any more. */
  lemma GossipHasDied(s: Group, k: nat, m: nat, queue: seq<Packet>, opens: int, window: int, delay: int)
    requires Fading(s, m, opens, window, delay) && k < |s.peers| && s.peers[k].alive && (k, m) in s.dropped
    requires Fresh(queue, m, s.now, opens, window, delay)
    requires window + delay <= T_CLEANUP * NANOS_PER_MILLI
    ensures forall x :: x in queue ==> m !in x.beat
  {
    assert PeerFading(s, k, m, opens, window, delay);
  }

  /** The record of m after merging: the old one, or one raised just now. */
  lemma MergedRecord(s: Group, k: nat, m: nat)
    requires WellFormed(s) && k < |s.peers| && m != k
    ensures var v := s.peers[k];
      var r := Merged(v.table, k, v.queue, s.now);
      && (m in v.table ==> m in r)
      && (m in r ==>
            || (m in v.table && r[m] == v.table[m])
            || (r[m].last == s.now && exists x :: x in v.queue && m in x.beat))
  {
    var v := s.peers[k];
    var base := Raised(v.table, k, s.now);
    MergeAllFacts(base, v.queue, s.now);
    var r := MergeAll(base, v.queue, s.now);
    if m in r && Taken(r[m], m, v.queue, s.now) {
      var q :| 0 <= q < |v.queue| && Carries(v.queue[q], m, r[m]);
      assert v.queue[q] in v.queue;
    }
  }

  lemma TickKeepsFading(s: Group, i: nat, receivers: seq<nat>, m: nat, opens: int, window: int, delay: int)
    requires Known(s) && Fading(s, m, opens, window, delay) && delay >= 0
    requires window + delay <= T_CLEANUP * NANOS_PER_MILLI
    requires i < |s.peers| && OwnCount(s.peers[i].table, i) == |s.births[i]|
    requires i < |s.peers| && s.peers[i].alive && Timely(s, Tick(i, receivers), m, opens, window, delay)
    ensures Fading(TickAt(s, i, receivers), m, opens, window, delay)
  {
    var v, t := s.peers[i], TickAt(s, i, receivers);
    var merged := Merged(v.table, i, v.queue, s.now);
    MergedIsOk(s.births, s.now, i, v.table, v.queue);
    assert PeerFading(s, i, m, opens, window, delay);
    MergedRecord(s, i, m);
    if m in merged {
      TimeoutsInNanos(merged[m], s.now);
      assert Caused(Born(s.births, i, s.now), m, merged[m], merged[m].last);
      if (i, m) in s.dropped {
        GossipHasDied(s, i, m, v.queue, opens, window, delay);
      }
      assert InWindow(merged[m], opens, window);
    }
    TickFades(s, i, receivers, m, opens, window, delay);
  }

  /** Given what merging leaves of m, the rest of a tick keeps the picture. */
  lemma TickFades(s: Group, i: nat, receivers: seq<nat>, m: nat, opens: int, window: int, delay: int)
    requires Fading(s, m, opens, window, delay) && delay >= 0 && i < |s.peers| && s.peers[i].alive
    requires var merged := Merged(s.peers[i].table, i, s.peers[i].queue, s.now);
      m in merged ==> (i, m) !in s.dropped && !merged[m].leaving && InWindow(merged[m], opens, window)
    ensures Fading(TickAt(s, i, receivers), m, opens, window, delay)
  {
    var t := TickAt(s, i, receivers);
    var merged := Merged(s.peers[i].table, i, s.peers[i].queue, s.now);
    if m in merged {
      TimeoutsInNanos(merged[m], s.now);
    }
    var beat := Beat(Clean(merged, s.now), s.now);
    forall x | x in t.net && m in x.beat
      ensures x.sentAt < opens + window + SUSPECT && s.now <= x.sentAt + delay
    {
      if x !in s.net {
        assert x.beat == beat && x.sentAt == s.now;
      }
    }
    forall k | 0 <= k < |t.peers| && t.peers[k].alive ensures PeerFading(t, k, m, opens, window, delay) {
      if k != i {
        assert PeerFading(s, k, m, opens, window, delay);
        assert t.peers[k] == s.peers[k] && ((k, m) in t.dropped <==> (k, m) in s.dropped);
      } else {
        assert PeerFading(s, i, m, opens, window, delay);
      }
    }
  }

  lemma OtherKeepsFading(s: Group, a: Action, m: nat, opens: int, window: int, delay: int)
    requires Fading(s, m, opens, window, delay) && !a.Tick?
    requires Apply(s, a).Some? && Timely(s, a, m, opens, window, delay)
    ensures Fading(Apply(s, a).value, m, opens, window, delay)
  {
    var t := Apply(s, a).value;
    if a.Arrive? || a.Lose? {
      WithoutKeeps(s.net, a.p);
    }
    forall k | 0 <= k < |t.peers| && t.peers[k].alive ensures PeerFading(t, k, m, opens, window, delay) {
      assert PeerFading(s, k, m, opens, window, delay);
      if a.Arrive? && t.peers[k].queue != s.peers[k].queue {
        assert s.net[a.p] in s.net;
      }
    }
  }

  ghost predicate TimelyRun(s: Group, actions: seq<Action>, m: nat, opens: int, window: int, delay: int)
    requires WellFormed(s)
    decreases |actions|
  {
    actions != [] ==>
      var before := Run(s, actions[..|actions| - 1]);
      && TimelyRun(s, actions[..|actions| - 1], m, opens, window, delay)
      && before.Some? && Timely(before.value, actions[|actions| - 1], m, opens, window, delay)
  }

  /** No resurrection.  If members raise the record of a crashed m for the last time within a
      window and gossip is merged within `delay`, with window + delay <= T_CLEANUP, then whoever
      has removed m never has it in its table again, at any later point of the run. */
  lemma {:induction false} RemovedMemberStaysAway(s: Group, actions: seq<Action>, m: nat, opens: int, window: int,
      delay: int)
    requires Causal(s) && Fading(s, m, opens, window, delay) && delay >= 0
    requires window + delay <= T_CLEANUP * NANOS_PER_MILLI
    requires Run(s, actions).Some? && TimelyRun(s, actions, m, opens, window, delay)
    ensures var t := Run(s, actions).value;
      && Causal(t) && Fading(t, m, opens, window, delay)
      && forall k :: 0 <= k < |t.peers| && t.peers[k].alive && (k, m) in t.dropped ==> m !in t.peers[k].table
    decreases |actions|
  {
    if actions != [] {
      var before, a := actions[..|actions| - 1], actions[|actions| - 1];
      RemovedMemberStaysAway(s, before, m, opens, window, delay);
      var u := Run(s, before).value;
      StepKeepsCausal(u, a);
      if a.Tick? {
        TickKeepsFading(u, a.i, a.receivers, m, opens, window, delay);
      } else {
        OtherKeepsFading(u, a, m, opens, window, delay);
      }
    }
    var t := Run(s, actions).value;
    forall k | 0 <= k < |t.peers| && t.peers[k].alive && (k, m) in t.dropped ensures m !in t.peers[k].table {
      assert PeerFading(t, k, m, opens, window, delay);
    }
  }
}
