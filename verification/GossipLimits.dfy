/** The two timing guarantees are exact: with any larger bound there is a run that breaks them. */
module GossipLimits {
  import opened Options
  import opened Gossip
  import opened GossipTimed
  import C = GossipCrash

  function R(count: int, last: int): Record { Record(count, last, false) }

  // ---- no false failure ----

  /** Whatever happens within these bounds, a watched member is not removed. */
  ghost predicate NeverDrops(period: int, delay: int) {
    forall s, actions, m: nat, k: nat :: Premises(s, actions, m, k, period, delay) ==>
        (k, m) !in Run(s, actions).value.dropped
  }

  ghost predicate Premises(s: Group, actions: seq<Action>, m: nat, k: nat, period: int, delay: int) {
    && Causal(s) && Watched(s, m, k, period, delay) && (k, m) !in s.dropped
    && Run(s, actions).Some? && TimelyRun(s, actions, m, k, period, delay)
  }

  lemma Extended(s: Group, actions: seq<Action>, t: Group, a: Action, m: nat, k: nat, period: int, delay: int)
    requires WellFormed(s) && m < |s.births| && TimelyRun(s, actions, m, k, period, delay)
    requires Run(s, actions) == Some(t) && m < |t.births| && t.births[m] != []
    requires Timely(t, a, m, k, period, delay) && Apply(t, a).Some?
    ensures Run(s, actions + [a]) == Apply(t, a) && TimelyRun(s, actions + [a], m, k, period, delay)
  {
    assert (actions + [a])[..|actions + [a]| - 1] == actions;
  }

  /** Member 0 has just merged the first heartbeat of member 1. */
  const HEARD := Peer(true, map[0 := Record(1, 0, false), 1 := Record(1, 0, false)], [])

  function Heard(): Group {
    Group(0, [HEARD, Peer(true, map[1 := R(1, 0)], [])], [], [[0], [0]], {})
  }

  lemma HeardIsWatched(period: int, delay: int)
    requires period >= 0 && delay >= 0
    ensures Causal(Heard()) && Watched(Heard(), 1, 0, period, delay)
  {
    var s := Heard();
    forall k | 0 <= k < 2
        ensures TableOk(s.births, s.now, s.peers[k].table) && OwnCount(s.peers[k].table, k) == |s.births[k]| {
    }
    forall c | 1 <= c <= |s.births[1]| ensures Backed(s, 1, 0, c) {
      assert s.peers[0].table[1].count >= 1;
    }
  }

  /** Member 0 has heard nothing since, while member 1 keeps ticking and its heartbeats are late. */
  ghost predicate Waiting(s: Group, period: int, births: seq<int>) {
    && births != [] && 0 <= births[|births| - 1] <= s.now
    && s.peers == [HEARD, Peer(true, map[1 := R(|births|, births[|births| - 1])], [])]
    && s.births == [[0], births] && s.dropped == {}
    && (forall x :: x in s.net ==> x.from == 1 && x.to == 0 && x.sentAt >= period)
  }

  lemma MemberTicksLate(s: Group, period: int, births: seq<int>)
    requires Waiting(s, period, births) && s.now >= period
    ensures WellFormed(s) && Waiting(TickAt(s, 1, [0]), period, births + [s.now]) && TickAt(s, 1, [0]).now == s.now
  {
    var t := TickAt(s, 1, [0]);
    var v := s.peers[1];
    var merged := Merged(v.table, 1, v.queue, s.now);
    assert merged == map[1 := R(|births| + 1, s.now)];
    assert Clean(merged, s.now) == merged && Stay(merged) == merged;
    assert t.births == [[0], births + [s.now]];
    assert t.dropped == {};
    assert Packets(1, [0], s.now, Beat(merged, s.now)) == [Packet(1, 0, s.now, Beat(merged, s.now))];
  }

  /** Time goes on, up to when member 1 has to tick again. */
  lemma AdvanceLate(s0: Group, before: seq<Action>, s: Group, births: seq<int>, to: int, period: int, delay: int)
    requires WellFormed(s0) && 1 < |s0.births| && TimelyRun(s0, before, 1, 0, period, delay)
    requires Run(s0, before) == Some(s) && Waiting(s, period, births)
    requires s.now == births[|births| - 1] <= to <= s.now + period && to <= period + delay
    ensures var u := s.(now := to);
      && Run(s0, before + [Advance(to)]) == Some(u) && Waiting(u, period, births)
      && TimelyRun(s0, before + [Advance(to)], 1, 0, period, delay)
  {
    Extended(s0, before, s, Advance(to), 1, 0, period, delay);
  }

  lemma TickLate(s0: Group, before: seq<Action>, u: Group, births: seq<int>, period: int, delay: int)
    returns (v: Group)
    requires WellFormed(s0) && 1 < |s0.births| && TimelyRun(s0, before, 1, 0, period, delay)
    requires Run(s0, before) == Some(u) && Waiting(u, period, births) && u.now >= period
    ensures Run(s0, before + [Tick(1, [0])]) == Some(v) && TimelyRun(s0, before + [Tick(1, [0])], 1, 0, period, delay)
    ensures Waiting(v, period, births + [u.now]) && v.now == u.now
  {
    MemberTicksLate(u, period, births);
    Extended(s0, before, u, Tick(1, [0]), 1, 0, period, delay);
    v := TickAt(u, 1, [0]);
  }

  /** Time passes up to `until`, with member 1 ticking once per period. */
  lemma {:induction false} TimePasses(s0: Group, before: seq<Action>, s: Group, births: seq<int>, period: int,
      delay: int)
    returns (actions: seq<Action>, t: Group, later: seq<int>)
    requires period > 0 && delay >= 0 && WellFormed(s0) && 1 < |s0.births|
    requires TimelyRun(s0, before, 1, 0, period, delay) && Run(s0, before) == Some(s)
    requires Waiting(s, period, births) && s.now == births[|births| - 1] <= period + delay
    ensures Run(s0, actions) == Some(t) && TimelyRun(s0, actions, 1, 0, period, delay)
    ensures Waiting(t, period, later) && t.now == period + delay
    decreases period + delay - s.now
  {
    var rest := period + delay - s.now;
    var to := if rest <= period then period + delay else s.now + period;
    AdvanceLate(s0, before, s, births, to, period, delay);
    var u := s.(now := to);
    if rest <= period {
      actions, t, later := before + [Advance(to)], u, births;
    } else {
      var v := TickLate(s0, before + [Advance(to)], u, births, period, delay);
      actions, t, later := TimePasses(s0, before + [Advance(to)] + [Tick(1, [0])], v, births + [to], period, delay);
    }
  }

  lemma WatcherDrops(s: Group, period: int, births: seq<int>)
    requires Waiting(s, period, births) && s.now / NANOS_PER_MILLI > T_FAIL + T_CLEANUP
    ensures WellFormed(s) && (0, 1) in TickAt(s, 0, []).dropped
  {
    var v := s.peers[0];
    var merged := Merged(v.table, 0, v.queue, s.now);
    assert 1 in merged && merged[1] == R(1, 0);
    assert ShouldBeCleanUp(merged[1], s.now);
  }

  /** Heartbeats that are only a little later make member 0 remove the live member 1. */
  lemma LateHeartbeatsDrop(period: int, delay: int) returns (actions: seq<Action>)
    requires period > 0 && delay >= 0 && (period + delay) / NANOS_PER_MILLI > T_FAIL + T_CLEANUP
    ensures Premises(Heard(), actions, 1, 0, period, delay)
    ensures (0, 1) in Run(Heard(), actions).value.dropped
  {
    HeardIsWatched(period, delay);
    var t, later;
    assert Run(Heard(), []) == Some(Heard());
    actions, t, later := TimePasses(Heard(), [], Heard(), [0], period, delay);
    WatcherDrops(t, period, later);
    Extended(Heard(), actions, t, Tick(0, []), 1, 0, period, delay);
    actions := actions + [Tick(0, [])];
  }

  /** No false failure, exactly: members that tick every `period` and are heard within `delay` are
      safe if and only if period + delay, in whole milliseconds, is at most T_FAIL + T_CLEANUP. */
  lemma NoFalseFailureExactly(period: int, delay: int)
    requires period > 0 && delay >= 0
    ensures NeverDrops(period, delay) <==> (period + delay) / NANOS_PER_MILLI <= T_FAIL + T_CLEANUP
    ensures NeverDrops(period, delay) <==> period + delay < 4_001_000_000
  {
    if (period + delay) / NANOS_PER_MILLI <= T_FAIL + T_CLEANUP {
      forall s, actions, m: nat, k: nat | Premises(s, actions, m, k, period, delay)
        ensures (k, m) !in Run(s, actions).value.dropped
      {
        LiveMemberIsNeverDropped(s, actions, m, k, period, delay);
      }
    } else {
      var actions := LateHeartbeatsDrop(period, delay);
    }
  }

  // ---- no resurrection ----

  /** Whatever happens within these bounds, nobody takes back a member it has removed. */
  ghost predicate NeverResurrects(window: int, delay: int) {
    forall s, actions, m: nat, k: nat, opens: int :: CrashPremises(s, actions, m, k, opens, window, delay) ==>
      var t := Run(s, actions).value; k < |t.peers| && t.peers[k].alive && (k, m) in t.dropped ==>
          m !in t.peers[k].table
  }

  ghost predicate CrashPremises(s: Group, actions: seq<Action>, m: nat, k: nat, opens: int, window: int, delay: int) {
    Causal(s) && C.Fading(s, m, opens, window, delay) && Run(s, actions).Some? &&
        C.TimelyRun(s, actions, m, opens, window, delay)
  }

  lemma CrashExtended(s: Group, actions: seq<Action>, t: Group, a: Action, u: Group, m: nat, opens: int,
      window: int, delay: int)
    requires WellFormed(s) && C.TimelyRun(s, actions, m, opens, window, delay) && Run(s, actions) == Some(t)
    requires C.Timely(t, a, m, opens, window, delay) && Apply(t, a) == Some(u)
    ensures Run(s, actions + [a]) == Some(u) && C.TimelyRun(s, actions + [a], m, opens, window, delay)
  {
    RunExtended(s, actions, t, a);
    var all := actions + [a];
    assert all[..|all| - 1] == actions && all[|all| - 1] == a;
    assert C.TimelyRun(s, all, m, opens, window, delay);
  }

  lemma RunExtended(s: Group, actions: seq<Action>, t: Group, a: Action)
    requires WellFormed(s) && Run(s, actions) == Some(t)
    ensures Run(s, actions + [a]) == Apply(t, a)
  {
    var all := actions + [a];
    assert all[..|all| - 1] == actions && all[|all| - 1] == a;
  }

  /** Member 2 has crashed at time `window`; member 0 heard of it last at time 0, member 1 just now. */
  function Crashed(window: int): Group {
    Group(window, [Peer(true, map[0 := R(1, 0), 2 := R(1, 0)], []),
        Peer(true, map[1 := R(1, window), 2 := R(2, window)], []),
                   Peer(false, map[2 := R(2, window)], [])],
          [], [[0], [window], [0, window]], {})
  }

  lemma CrashedIsFading(window: int, delay: int)
    requires window >= 0 && delay >= 0
    ensures Causal(Crashed(window)) && C.Fading(Crashed(window), 2, 0, window, delay)
  {
    var s := Crashed(window);
    assert TableOk(s.births, s.now, s.peers[0].table);
    assert TableOk(s.births, s.now, s.peers[1].table);
    assert TableOk(s.births, s.now, s.peers[2].table);
    forall k | 0 <= k < 3 ensures OwnCount(s.peers[k].table, k) == |s.births[k]| {
    }
    forall k | 0 <= k < 3 && s.peers[k].alive ensures C.PeerFading(s, k, 2, 0, window, delay) {
    }
  }

  /** The last moment at which member 1 still passes the record of member 2 on. */
  function LastWord(window: int): int { window + C.SUSPECT - 1 }

  function Report(window: int): Packet {
    Packet(1, 0, LastWord(window), map[1 := R(2, LastWord(window)), 2 := R(2, window)])
  }

  function Reported(window: int, now: int): Group {
    Group(now, [Crashed(window).peers[0], Peer(true, map[1 := R(2, LastWord(window)), 2 := R(2, window)], []),
                Crashed(window).peers[2]],
          [Report(window)], [[0], [window, LastWord(window)], [0, window]], {})
  }

  lemma MemberReports(window: int)
    requires window >= 0
    ensures var s := Crashed(window).(now := LastWord(window));
      Apply(s, Tick(1, [0])) == Some(Reported(window, LastWord(window))) && !C.Touches(s, 1, 2)
  {
    var s := Crashed(window).(now := LastWord(window));
    var v := s.peers[1];
    var merged := Merged(v.table, 1, v.queue, s.now);
    assert merged == map[1 := R(2, s.now), 2 := R(2, window)];
    C.TimeoutsInNanos(merged[2], s.now);
    assert Clean(merged, s.now) == merged && Stay(merged) == merged && Beat(merged, s.now) == merged;
    assert Packets(1, [0], s.now, merged) == [Report(window)];
    var t, u := TickAt(s, 1, [0]), Reported(window, LastWord(window));
    assert t.births[1] == u.births[1];
    assert t.births == u.births;
    assert t.peers == u.peers;
    assert t.net == u.net && t.dropped == u.dropped;
  }

  /** Member 0 has removed member 2; the report is on its way, or queued. */
  function Removed(window: int, now: int, queued: bool): Group {
    Group(now, [Peer(true, map[0 := R(2, now)], if queued then [Report(window)] else []),
        Reported(window, now).peers[1],
                Crashed(window).peers[2]],
          if queued then [] else [Report(window)], [[0, now], [window, LastWord(window)], [0, window]], {(0, 2)})
  }

  lemma MemberRemoves(window: int, now: int)
    requires now >= C.REMOVE
    ensures Apply(Reported(window, now), Tick(0, [])) == Some(Removed(window, now, false))
    ensures WellFormed(Reported(window, now)) && !C.Touches(Reported(window, now), 0, 2)
  {
    var s := Reported(window, now);
    var v := s.peers[0];
    var merged := Merged(v.table, 0, v.queue, now);
    assert merged == map[0 := R(2, now), 2 := R(1, 0)];
    C.TimeoutsInNanos(merged[2], now);
    C.TimeoutsInNanos(merged[0], now);
    assert Clean(merged, now) == map[0 := R(2, now)];
    assert Stay(Clean(merged, now)) == map[0 := R(2, now)];
    var t, u := TickAt(s, 0, []), Removed(window, now, false);
    assert t.dropped == u.dropped;
    assert t.net == u.net;
    assert t.births[0] == u.births[0];
    assert t.births == u.births;
    assert t.peers == u.peers;
  }

  lemma MemberReturns(window: int, now: int)
    requires now >= LastWord(window)
    ensures WellFormed(Removed(window, now, true)) && 2 in TickAt(Removed(window, now, true), 0, []).peers[0].table
    ensures (0, 2) in TickAt(Removed(window, now, true), 0, []).dropped
    ensures TickAt(Removed(window, now, true), 0, []).peers[0].alive
  {
    var s := Removed(window, now, true);
    var v := s.peers[0];
    var base := Raised(v.table, 0, now);
    assert v.queue[..0] == [] && MergeAll(base, [], now) == base;
    var merged := Merged(v.table, 0, v.queue, now);
    assert merged == Merge(base, Report(window).beat, now);
    assert merged[2] == R(2, now);
  }

  /** Gossip that is only a little slower makes member 0 take back member 2 after removing it. */
  lemma SlowGossipResurrects(window: int, delay: int) returns (actions: seq<Action>)
    requires window >= 0 && delay >= 0 && window + delay > T_CLEANUP * NANOS_PER_MILLI
    ensures CrashPremises(Crashed(window), actions, 2, 0, 0, window, delay)
    ensures var t := Run(Crashed(window), actions).value;
      0 < |t.peers| && t.peers[0].alive && (0, 2) in t.dropped && 2 in t.peers[0].table
  {
    CrashedIsFading(window, delay);
    var s, t2 := Crashed(window), LastWord(window) + delay;
    actions := ReportArrivesLate(window, delay);
    MemberRemoves(window, t2);
    CrashExtended(s, actions, Reported(window, t2), Tick(0, []), Removed(window, t2, false), 2, 0, window, delay);
    actions := actions + [Tick(0, [])];
    ReportIsQueued(window, t2);
    CrashExtended(s, actions, Removed(window, t2, false), Arrive(0), Removed(window, t2, true), 2, 0, window, delay);
    actions := actions + [Arrive(0)];
    MemberReturns(window, t2);
    CrashExtended(s, actions, Removed(window, t2, true), Tick(0, []),
        TickAt(Removed(window, t2, true), 0, []), 2, 0, window, delay);
    actions := actions + [Tick(0, [])];
  }

  /** Member 1 reports at the last moment, and the report takes as long as it may. */
  lemma ReportArrivesLate(window: int, delay: int) returns (actions: seq<Action>)
    requires window >= 0 && delay >= 0
    ensures Run(Crashed(window), actions) == Some(Reported(window, LastWord(window) + delay))
    ensures C.TimelyRun(Crashed(window), actions, 2, 0, window, delay)
  {
    var s, t1 := Crashed(window), LastWord(window);
    assert Run(s, []) == Some(s);
    assert C.Timely(s, Advance(t1), 2, 0, window, delay);
    CrashExtended(s, [], s, Advance(t1), s.(now := t1), 2, 0, window, delay);
    MemberReports(window);
    actions := [] + [Advance(t1)];
    CrashExtended(s, actions, s.(now := t1), Tick(1, [0]), Reported(window, t1), 2, 0, window, delay);
    actions := actions + [Tick(1, [0])];
    assert C.Timely(Reported(window, t1), Advance(t1 + delay), 2, 0, window, delay);
    CrashExtended(s, actions, Reported(window, t1), Advance(t1 + delay),
        Reported(window, t1 + delay), 2, 0, window, delay);
    actions := actions + [Advance(t1 + delay)];
  }

  lemma ReportIsQueued(window: int, now: int)
    ensures Apply(Removed(window, now, false), Arrive(0)) == Some(Removed(window, now, true))
  {
    var t, u := Apply(Removed(window, now, false), Arrive(0)).value, Removed(window, now, true);
    assert Without(Removed(window, now, false).net, 0) == [];
    assert t.peers[0].queue == u.peers[0].queue;
    assert t.peers == u.peers;
  }

  /** No resurrection, exactly: a removed member stays away if and only if the window of its last
      refreshes and the delay of the gossip together are at most T_CLEANUP. */
  lemma NoResurrectionExactly(window: int, delay: int)
    requires window >= 0 && delay >= 0
    ensures NeverResurrects(window, delay) <==> window + delay <= T_CLEANUP * NANOS_PER_MILLI == 2_000_000_000
  {
    if window + delay <= T_CLEANUP * NANOS_PER_MILLI {
      forall s, actions, m: nat, k: nat, opens: int | CrashPremises(s, actions, m, k, opens, window, delay)
        ensures var t := Run(s, actions).value; k < |t.peers| && t.peers[k].alive && (k, m) in t.dropped ==>
            m !in t.peers[k].table
      {
        C.RemovedMemberStaysAway(s, actions, m, opens, window, delay);
      }
    } else {
      var actions := SlowGossipResurrects(window, delay);
    }
  }
}
