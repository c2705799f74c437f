/** Two timing guarantees of the gossip: a live monitored member is never declared failed, and a
    crashed member that was removed is never taken back. */
module GossipTimed {
  import opened Options
  import opened Gossip

  ghost function Run(s: Group, actions: seq<Action>): Option<Group>
    requires WellFormed(s)
    ensures Run(s, actions).Some? ==> WellFormed(Run(s, actions).value)
    decreases |actions|
  {
    if actions == [] then Some(s)
    else match Run(s, actions[..|actions| - 1])
      case None => None
      case Some(t) => Apply(t, actions[|actions| - 1])
  }

  lemma {:induction false} RunsStayCausal(s: Group, actions: seq<Action>)
    requires Causal(s) && Run(s, actions).Some?
    ensures Causal(Run(s, actions).value)
    decreases |actions|
  {
    if actions != [] {
      RunsStayCausal(s, actions[..|actions| - 1]);
      StepKeepsCausal(Run(s, actions[..|actions| - 1]).value, actions[|actions| - 1]);
    }
  }

  /** n daemons that have just been started. */
  function Start(n: nat, now: int): (s: Group)
    ensures WellFormed(s)
  {
    Group(now, seq(n, i => Peer(true, map[], [])), [], seq(n, i => []), {})
  }

  /** Whatever is stored or under way about member j, in any run, was said by j: its counter is at
      most j's own, and it is dated no earlier than the moment j's counter got there. */
  lemma CountersComeFromTheirOwner(n: nat, now: int, actions: seq<Action>, k: nat, j: nat)
    requires Run(Start(n, now), actions).Some?
    ensures var t := Run(Start(n, now), actions).value;
      && (k < |t.peers| && j in t.peers[k].table ==>
            j < |t.peers| && t.peers[k].table[j].count <= OwnCount(t.peers[j].table, j)
            && 1 <= t.peers[k].table[j].count <= |t.births[j]|
            && t.births[j][t.peers[k].table[j].count - 1] <= t.peers[k].table[j].last <= t.now)
      && (k < |t.net| && j in t.net[k].beat ==>
            j < |t.peers| && t.net[k].beat[j].count <= OwnCount(t.peers[j].table, j))
  {
    RunsStayCausal(Start(n, now), actions);
    var t := Run(Start(n, now), actions).value;
    if k < |t.peers| && j in t.peers[k].table {
      assert TableOk(t.births, t.now, t.peers[k].table);
    }
    if k < |t.net| && j in t.net[k].beat {
      assert PacketOk(t.births, t.now, t.net[k]);
    }
  }

  lemma WithoutKeeps(net: seq<Packet>, p: nat)
    requires p < |net|
    ensures forall x :: x in Without(net, p) ==> x in net
    ensures forall x :: x in net && x != net[p] ==> x in Without(net, p)
  {
    assert net == net[..p] + [net[p]] + net[p + 1..];
  }

  // ---- no false failure ----

  /** The heartbeat with counter c of m is on its way to k, stamped with the moment of c. */
  ghost predicate Coming(s: Group, m: nat, k: nat, c: nat)
    requires WellFormed(s) && m < |s.peers| && 1 <= c <= |s.births[m]|
  {
    exists x :: x in s.net && x.from == m && x.to == k && m in x.beat && x.beat[m].count == c
             && x.sentAt == s.births[m][c - 1]
  }

  ghost predicate Queued(queue: seq<Packet>, m: nat, c: nat) {
    exists q :: 0 <= q < |queue| && m in queue[q].beat && queue[q].beat[m].count >= c
  }

  /** k has counter c of m, or a later one, in its table or its queue, or c is coming. */
  ghost predicate Backed(s: Group, m: nat, k: nat, c: nat)
    requires WellFormed(s) && m < |s.peers| && k < |s.peers| && m in s.peers[k].table && 1 <= c <= |s.births[m]|
  {
    s.peers[k].table[m].count >= c || Queued(s.peers[k].queue, m, c) || Coming(s, m, k, c)
  }

  ghost predicate Regular(b: seq<int>, now: int, period: int) {
    && b != [] && (forall c :: 0 < c < |b| ==> b[c - 1] <= b[c] <= b[c - 1] + period)
    && b[|b| - 1] <= now <= b[|b| - 1] + period
  }

  ghost predicate Punctual(net: seq<Packet>, now: int, m: nat, k: nat, delay: int) {
    forall x :: x in net && x.from == m && x.to == k ==> now <= x.sentAt + delay
  }

  /** m is alive and ticks at least every `period`; k is alive, knows m, and is sent every
      heartbeat of m, each arriving within `delay`. */
  ghost predicate Watched(s: Group, m: nat, k: nat, period: int, delay: int) {
    && WellFormed(s) && m < |s.peers| && k < |s.peers| && m != k && s.peers[m].alive && s.peers[k].alive
    && m in s.peers[k].table
    && Regular(s.births[m], s.now, period)
    && Punctual(s.net, s.now, m, k, delay)
    && forall c :: 1 <= c <= |s.births[m]| ==> Backed(s, m, k, c)
  }

  /** The timing and delivery assumptions, as a restriction on what may happen next. */
  ghost predicate Timely(s: Group, a: Action, m: nat, k: nat, period: int, delay: int)
    requires WellFormed(s) && m < |s.births| && s.births[m] != []
  {
    match a
    case Tick(i, receivers) => i == m ==> k in receivers
    case Arrive(p) => true
    case Lose(p) => p < |s.net| ==> !(s.net[p].from == m && s.net[p].to == k)
    case Crash(i) => i != m && i != k
    case Advance(to) =>
      to <= s.births[m][|s.births[m]| - 1] + period
      && Punctual(s.net, to, m, k, delay)
  }

  /** The heart of the argument: when k has merged its queue, its record of m is at most
      period + delay old, even if other members' gossip raised the counter first. */
  lemma RecordIsRecent(s: Group, m: nat, k: nat, period: int, delay: int)
    requires Known(s) && Watched(s, m, k, period, delay) && period >= 0 && delay >= 0
    requires OwnCount(s.peers[k].table, k) == |s.births[k]|
    ensures var r := Merged(s.peers[k].table, k, s.peers[k].queue, s.now);
      && m in r && s.now - r[m].last <= period + delay
      && r[m].count >= s.peers[k].table[m].count
      && forall c :: Queued(s.peers[k].queue, m, c) ==> r[m].count >= c
  {
    var v, b := s.peers[k], s.births[m];
    var r := Merged(v.table, k, v.queue, s.now);
    MergedIsMonotone(s.births, s.now, k, v.table, v.queue, m);
    forall c | Queued(v.queue, m, c) ensures r[m].count >= c {
      QueueIsCovered(s.births, s.now, v.table, k, v.queue, m, c);
    }
    MergedIsOk(s.births, s.now, k, v.table, v.queue);
    assert Caused(Born(s.births, k, s.now), m, r[m], r[m].last);
    var x := r[m].count;
    if x < |b| {
      assert Backed(s, m, k, x + 1);
      assert Coming(s, m, k, x + 1);
    }
  }

  lemma QueueIsCovered(births: Births, now: int, table: Table, k: nat, queue: seq<Packet>, m: nat, c: nat)
    requires QueueOk(births, now, queue) && Queued(queue, m, c) && m in Merged(table, k, queue, now)
    ensures Merged(table, k, queue, now)[m].count >= c
  {
    var q :| 0 <= q < |queue| && m in queue[q].beat && queue[q].beat[m].count >= c;
    assert PacketOk(births, now, queue[q]);
    assert Caused(births, m, queue[q].beat[m], queue[q].sentAt);
    MergeAllCovers(Raised(table, k, now), queue, now, q, m);
  }

  lemma WatcherTicks(s: Group, m: nat, k: nat, receivers: seq<nat>, period: int, delay: int)
    requires Known(s) && Watched(s, m, k, period, delay) && period >= 0 && delay >= 0
    requires OwnCount(s.peers[k].table, k) == |s.births[k]|
    requires (period + delay) / NANOS_PER_MILLI <= T_FAIL + T_CLEANUP
    ensures Watched(TickAt(s, k, receivers), m, k, period, delay)
    ensures TickAt(s, k, receivers).dropped * {(k, m)} == s.dropped * {(k, m)}
  {
    var v, t := s.peers[k], TickAt(s, k, receivers);
    var merged := Merged(v.table, k, v.queue, s.now);
    RecordIsRecent(s, m, k, period, delay);
    MergedIsOk(s.births, s.now, k, v.table, v.queue);
    assert Caused(Born(s.births, k, s.now), m, merged[m], merged[m].last);
    assert !ShouldBeCleanUp(merged[m], s.now);
    assert t.peers[k].table[m] == merged[m];
    assert t.births[m] == s.births[m];
    StillComing(s, t, m, k);
    forall c | 1 <= c <= |s.births[m]| ensures Backed(t, m, k, c) {
      assert Backed(s, m, k, c);
    }
  }

  /** The heartbeat of a tick carries the new own counter to every receiver. */
  lemma HeartbeatLeaves(s: Group, m: nat, k: nat, receivers: seq<nat>)
    requires Known(s) && m < |s.peers| && k in receivers
    requires OwnCount(s.peers[m].table, m) == |s.births[m]|
    ensures Coming(TickAt(s, m, receivers), m, k, |s.births[m]| + 1)
  {
    var v, n := s.peers[m], |s.births[m]| + 1;
    var merged := Merged(v.table, m, v.queue, s.now);
    OwnRecordStays(s.births, s.now, m, v.table, v.queue);
    var beat := Beat(Clean(merged, s.now), s.now);
    assert m in beat && beat[m].count == n;
    var j :| 0 <= j < |receivers| && receivers[j] == k;
    assert Packets(m, receivers, s.now, beat)[j] == Packet(m, k, s.now, beat);
    assert Packet(m, k, s.now, beat) in TickAt(s, m, receivers).net;
  }

  lemma MemberTicks(s: Group, m: nat, k: nat, receivers: seq<nat>, period: int, delay: int)
    requires Known(s) && Watched(s, m, k, period, delay) && period >= 0 && delay >= 0 && k in receivers
    requires OwnCount(s.peers[m].table, m) == |s.births[m]|
    ensures Watched(TickAt(s, m, receivers), m, k, period, delay)
  {
    var t := TickAt(s, m, receivers);
    HeartbeatLeaves(s, m, k, receivers);
    StillComing(s, t, m, k);
    assert t.births[m] == s.births[m] + [s.now];
    assert t.peers[k] == s.peers[k];
    forall c | 1 <= c <= |t.births[m]| ensures Backed(t, m, k, c) {
      if c <= |s.births[m]| {
        assert Backed(s, m, k, c);
      }
    }
  }

  lemma StillComing(s: Group, t: Group, m: nat, k: nat)
    requires WellFormed(s) && WellFormed(t) && m < |s.peers| == |t.peers|
    requires s.births[m] <= t.births[m]
    requires forall x :: x in s.net ==> x in t.net
    ensures forall c: nat :: 1 <= c <= |s.births[m]| && Coming(s, m, k, c) ==> Coming(t, m, k, c)
  {
    forall c: nat | 1 <= c <= |s.births[m]| && Coming(s, m, k, c) ensures Coming(t, m, k, c) {
      var x :| x in s.net && x.from == m && x.to == k && m in x.beat && x.beat[m].count == c
            && x.sentAt == s.births[m][c - 1];
      assert x in t.net;
    }
  }

  lemma OtherTicks(s: Group, m: nat, k: nat, i: nat, receivers: seq<nat>, period: int, delay: int)
    requires Watched(s, m, k, period, delay) && i < |s.peers| && i != m && i != k
    ensures Watched(TickAt(s, i, receivers), m, k, period, delay)
  {
    var t := TickAt(s, i, receivers);
    StillComing(s, t, m, k);
    assert t.peers[k] == s.peers[k] && t.births[m] == s.births[m];
    forall c | 1 <= c <= |t.births[m]| ensures Backed(t, m, k, c) {
      assert Backed(s, m, k, c);
    }
  }

  lemma PacketLeaves(s: Group, a: Action, m: nat, k: nat, period: int, delay: int)
    requires Watched(s, m, k, period, delay) && Timely(s, a, m, k, period, delay)
    requires (a.Arrive? || a.Lose?) && Apply(s, a).Some?
    ensures Watched(Apply(s, a).value, m, k, period, delay)
  {
    var t, gone := Apply(s, a).value, s.net[a.p];
    WithoutKeeps(s.net, a.p);
    assert t.births[m] == s.births[m];
    forall c | 1 <= c <= |s.births[m]| ensures Backed(t, m, k, c) {
      assert Backed(s, m, k, c);
      var queue := t.peers[k].queue;
      if Queued(s.peers[k].queue, m, c) {
        var q :| 0 <= q < |s.peers[k].queue| && m in s.peers[k].queue[q].beat && s.peers[k].queue[q].beat[m].count >= c;
        assert queue[q] == s.peers[k].queue[q];
      } else if s.peers[k].table[m].count < c {
        var x :| x in s.net && x.from == m && x.to == k && m in x.beat && x.beat[m].count == c
              && x.sentAt == s.births[m][c - 1];
        if x == gone {
          assert queue[|queue| - 1] == x;
        } else {
          assert x in t.net;
        }
      }
    }
  }

  lemma QuietStep(s: Group, a: Action, m: nat, k: nat, period: int, delay: int)
    requires Watched(s, m, k, period, delay) && Timely(s, a, m, k, period, delay)
    requires (a.Crash? || a.Advance?) && Apply(s, a).Some?
    ensures Watched(Apply(s, a).value, m, k, period, delay)
  {
    var t := Apply(s, a).value;
    StillComing(s, t, m, k);
    forall c | 1 <= c <= |t.births[m]| ensures Backed(t, m, k, c) {
      assert Backed(s, m, k, c);
    }
  }

  lemma TickKeepsWatched(s: Group, i: nat, receivers: seq<nat>, m: nat, k: nat, period: int, delay: int)
    requires Known(s) && Watched(s, m, k, period, delay) && period >= 0 && delay >= 0
    requires (period + delay) / NANOS_PER_MILLI <= T_FAIL + T_CLEANUP
    requires i < |s.peers| && OwnCount(s.peers[i].table, i) == |s.births[i]| && (i == m ==> k in receivers)
    ensures Watched(TickAt(s, i, receivers), m, k, period, delay)
    ensures (k, m) in TickAt(s, i, receivers).dropped ==> (k, m) in s.dropped
  {
    if i == k {
      WatcherTicks(s, m, k, receivers, period, delay);
      assert (k, m) in TickAt(s, k, receivers).dropped * {(k, m)} <==> (k, m) in s.dropped * {(k, m)};
    } else if i == m {
      MemberTicks(s, m, k, receivers, period, delay);
    } else {
      OtherTicks(s, m, k, i, receivers, period, delay);
    }
  }

  lemma OtherStepKeepsWatched(s: Group, a: Action, m: nat, k: nat, period: int, delay: int)
    requires Watched(s, m, k, period, delay) && !a.Tick?
    requires Timely(s, a, m, k, period, delay) && Apply(s, a).Some?
    ensures Watched(Apply(s, a).value, m, k, period, delay)
    ensures Apply(s, a).value.dropped == s.dropped
  {
    if a.Arrive? || a.Lose? {
      PacketLeaves(s, a, m, k, period, delay);
    } else {
      QuietStep(s, a, m, k, period, delay);
    }
  }

  lemma StepKeepsWatched(s: Group, a: Action, m: nat, k: nat, period: int, delay: int)
    requires Causal(s) && Watched(s, m, k, period, delay) && period >= 0 && delay >= 0
    requires (period + delay) / NANOS_PER_MILLI <= T_FAIL + T_CLEANUP
    requires Timely(s, a, m, k, period, delay) && Apply(s, a).Some?
    ensures Watched(Apply(s, a).value, m, k, period, delay)
    ensures (k, m) in Apply(s, a).value.dropped ==> (k, m) in s.dropped
  {
    if a.Tick? {
      TickKeepsWatched(s, a.i, a.receivers, m, k, period, delay);
    } else {
      OtherStepKeepsWatched(s, a, m, k, period, delay);
    }
  }

  ghost predicate TimelyRun(s: Group, actions: seq<Action>, m: nat, k: nat, period: int, delay: int)
    requires WellFormed(s) && m < |s.births|
    decreases |actions|
  {
    actions != [] ==>
      var before := Run(s, actions[..|actions| - 1]);
      && TimelyRun(s, actions[..|actions| - 1], m, k, period, delay)
      && before.Some? && m < |before.value.births| && before.value.births[m] != []
      && Timely(before.value, actions[|actions| - 1], m, k, period, delay)
  }

  /** No false failure.  If m ticks at least every `period`, its heartbeats reach k within `delay`
      and period + delay, in whole milliseconds, is at most T_FAIL + T_CLEANUP, then k keeps m in
      its table for ever. */
  lemma {:induction false} LiveMemberIsNeverDropped(s: Group, actions: seq<Action>, m: nat, k: nat, period: int,
      delay: int)
    requires Causal(s) && Watched(s, m, k, period, delay) && period >= 0 && delay >= 0
    requires (period + delay) / NANOS_PER_MILLI <= T_FAIL + T_CLEANUP
    requires Run(s, actions).Some? && TimelyRun(s, actions, m, k, period, delay)
    ensures var t := Run(s, actions).value;
      && Causal(t) && Watched(t, m, k, period, delay)
      && m in t.peers[k].table && ((k, m) in t.dropped ==> (k, m) in s.dropped)
    decreases |actions|
  {
    if actions != [] {
      var before, a := actions[..|actions| - 1], actions[|actions| - 1];
      LiveMemberIsNeverDropped(s, before, m, k, period, delay);
      StepKeepsWatched(Run(s, before).value, a, m, k, period, delay);
      StepKeepsCausal(Run(s, before).value, a);
    }
  }
}
