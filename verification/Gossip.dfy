/** Heartbeat gossip with timeouts, as a timed transition system.  Times are nanoseconds. */
module Gossip {
  import opened Options

  /** One entry of a membership table: the member's counter and when it was last raised here. */
  datatype Record = Record(count: int, last: int, leaving: bool)
  type Table = map<nat, Record>

  const T_FAIL := 2000     // milliseconds
  const T_CLEANUP := 2000  // milliseconds
  const NANOS_PER_MILLI := 1_000_000

  function Milliseconds(now: int, last: int): int { (now - last) / NANOS_PER_MILLI }

  predicate IsTimedOut(r: Record, now: int) { Milliseconds(now, r.last) > T_FAIL }

  predicate ShouldBeCleanUp(r: Record, now: int) {
    Milliseconds(now, r.last) > T_FAIL + T_CLEANUP && !r.leaving
  }

  /** Member::update(Member&): a larger counter replaces the record and restarts its clock. */
  function Refresh(mine: Record, theirs: Record, now: int): Record {
    if theirs.count > mine.count then Record(theirs.count, now, theirs.leaving) else mine
  }

  /** A heartbeat, as one message sent to one subscriber. */
  datatype Packet = Packet(from: nat, to: nat, sentAt: int, beat: Table)

  /** Merging one heartbeat: known members are refreshed, unknown ones join unless leaving. */
  function Merge(table: Table, beat: Table, now: int): Table {
    map j | j in table.Keys + beat.Keys && (j in table || !beat[j].leaving) ::
      if j !in table then Record(beat[j].count, now, beat[j].leaving)
      else if j in beat then Refresh(table[j], beat[j], now)
      else table[j]
  }

  function MergeAll(table: Table, queue: seq<Packet>, now: int): Table {
    if queue == [] then table
    else Merge(MergeAll(table, queue[..|queue| - 1], now), queue[|queue| - 1].beat, now)
  }

  function Clean(table: Table, now: int): Table {
    map j | j in table && !ShouldBeCleanUp(table[j], now) :: table[j]
  }

  /** What a heartbeat reports: leaving members and those not timed out. */
  function Beat(table: Table, now: int): Table {
    map j | j in table && (table[j].leaving || !IsTimedOut(table[j], now)) :: table[j]
  }

  function Stay(table: Table): Table {
    map j | j in table && !table[j].leaving :: table[j]
  }

  /** updateMembers before cleaning: raise the own counter, then merge what was received. */
  function Merged(table: Table, self: nat, queue: seq<Packet>, now: int): Table {
    MergeAll(Raised(table, self, now), queue, now)
  }

  function OwnCount(table: Table, self: nat): int {
    if self in table then table[self].count else 0
  }

  function Raised(table: Table, self: nat, now: int): Table {
    table[self := Record(OwnCount(table, self) + 1, now, false)]
  }

  // ---- the group ----

  datatype Peer = Peer(alive: bool, table: Table, queue: seq<Packet>)

  /** births[i][c-1] is when member i's own counter became c; dropped holds (k, j) once k has
      removed j for silence.  Both are histories that no step depends on. */
  datatype Group = Group(now: int, peers: seq<Peer>, net: seq<Packet>, births: seq<seq<int>>, dropped: set<(nat, nat)>)

  datatype Action =
    | Tick(i: nat, receivers: seq<nat>)  // one round of the heartbeat thread
    | Arrive(p: nat)                     // packet p enters the queue of its receiver
    | Lose(p: nat)
    | Crash(i: nat)
    | Advance(to: int)

  predicate WellFormed(s: Group) {
    |s.births| == |s.peers|
  }

  function Packets(from: nat, receivers: seq<nat>, now: int, beat: Table): seq<Packet> {
    seq(|receivers|, j requires 0 <= j < |receivers| => Packet(from, receivers[j], now, beat))
  }

  function Without(net: seq<Packet>, p: nat): seq<Packet>
    requires p < |net|
  {
    net[..p] + net[p + 1..]
  }

  function TickAt(s: Group, i: nat, receivers: seq<nat>): Group
    requires WellFormed(s) && i < |s.peers|
  {
    var v := s.peers[i];
    var merged := Merged(v.table, i, v.queue, s.now);
    var kept := Clean(merged, s.now);
    Group(s.now,
          s.peers[i := Peer(true, Stay(kept), [])],
          s.net + Packets(i, receivers, s.now, Beat(kept, s.now)),
          s.births[i := s.births[i] + [s.now]],
          s.dropped + set j | j in merged && j !in kept :: (i, j))
  }

  function Apply(s: Group, a: Action): Option<Group>
    requires WellFormed(s)
  {
    match a
    case Tick(i, receivers) =>
      if i < |s.peers| && s.peers[i].alive then Some(TickAt(s, i, receivers)) else None
    case Arrive(p) =>
      if p >= |s.net| then None else
      var x := s.net[p];
      var rest := s.(net := Without(s.net, p));
      if x.to < |s.peers| && s.peers[x.to].alive
      then Some(rest.(peers := s.peers[x.to := s.peers[x.to].(queue := s.peers[x.to].queue + [x])]))
      else Some(rest)
    case Lose(p) =>
      if p < |s.net| then Some(s.(net := Without(s.net, p))) else None
    case Crash(i) =>
      if i < |s.peers| then Some(s.(peers := s.peers[i := s.peers[i].(alive := false)])) else None
    case Advance(to) =>
      if to >= s.now then Some(s.(now := to)) else None
  }

  // ---- merging ----

  /** A merge only ever raises counters, and whatever it takes over gets the current time. */
  lemma {:induction false} MergeAllFacts(table: Table, queue: seq<Packet>, now: int)
    ensures var r := MergeAll(table, queue, now);
      && (forall j :: j in table ==> j in r && r[j].count >= table[j].count)
      && (forall j :: j in r ==> (j in table && r[j] == table[j]) || Taken(r[j], j, queue, now))
    decreases |queue|
  {
    if queue != [] {
      var before, x := queue[..|queue| - 1], queue[|queue| - 1];
      MergeAllFacts(table, before, now);
      var m, r := MergeAll(table, before, now), MergeAll(table, queue, now);
      forall j | j in r ensures (j in table && r[j] == table[j]) || Taken(r[j], j, queue, now) {
        if j in m && r[j] == m[j] {
          if Taken(m[j], j, before, now) {
            var k :| 0 <= k < |before| && Carries(before[k], j, m[j]);
            assert Carries(queue[k], j, r[j]);
          }
        } else {
          assert Carries(queue[|queue| - 1], j, r[j]);
        }
      }
    }
  }

  predicate Carries(x: Packet, j: nat, r: Record) {
    j in x.beat && x.beat[j].count == r.count && x.beat[j].leaving == r.leaving
  }

  ghost predicate Taken(r: Record, j: nat, queue: seq<Packet>, now: int) {
    r.last == now && exists k :: 0 <= k < |queue| && Carries(queue[k], j, r)
  }

  /** Everything received is taken into account before anything is cleaned up. */
  lemma {:induction false} MergeAllCovers(table: Table, queue: seq<Packet>, now: int, k: nat, j: nat)
    requires k < |queue| && j in queue[k].beat && !queue[k].beat[j].leaving
    ensures j in MergeAll(table, queue, now)
    ensures MergeAll(table, queue, now)[j].count >= queue[k].beat[j].count
    decreases |queue|
  {
    if k < |queue| - 1 {
      MergeAllCovers(table, queue[..|queue| - 1], now, k, j);
    }
  }

  /** News of a counter no larger than the known one changes nothing, not even the clock. */
  lemma OldNewsIsIgnored(table: Table, beat: Table, now: int, j: nat)
    requires j in table && (j in beat ==> beat[j].count <= table[j].count)
    ensures j in Merge(table, beat, now) && Merge(table, beat, now)[j] == table[j]
  {
  }

  /** A newcomer is entered with its counter and the local time, unless it is leaving. */
  lemma NewcomerJoins(table: Table, beat: Table, now: int, j: nat)
    requires j !in table
    ensures j in Merge(table, beat, now) <==> j in beat && !beat[j].leaving
    ensures j in Merge(table, beat, now) ==> Merge(table, beat, now)[j] == Record(beat[j].count, now, false)
  {
  }

  /** A member that says it leaves is passed on as leaving by everybody who knew it, however late
      they tick, is never taken for failed, is forgotten after that one heartbeat, and does not come
      back when the same news arrives again. */
  lemma LeaverIsPassedOnOnce(table: Table, beat: Table, now: int, later: int, again: int, j: nat)
    requires j in table && j in beat && beat[j].leaving && beat[j].count > table[j].count
    ensures var kept := Clean(Merge(table, beat, now), later);
      && j in kept && j in Beat(kept, later) && Beat(kept, later)[j] == Record(beat[j].count, now, true)
      && j !in Stay(kept) && j !in Merge(Stay(kept), beat, again)
      && forall i :: i in kept && i !in Stay(kept) ==> kept[i].leaving
  {
  }

  // ---- causality ----

  type Births = seq<seq<int>>

  /** A record about j that could exist at a given time: its counter has been reached by then. */
  predicate Caused(births: Births, j: nat, r: Record, time: int) {
    j < |births| && 1 <= r.count <= |births[j]| && births[j][r.count - 1] <= time && !r.leaving
  }

  ghost predicate TableOk(births: Births, now: int, table: Table) {
    forall j :: j in table ==> Caused(births, j, table[j], table[j].last) && table[j].last <= now
  }

  ghost predicate PacketOk(births: Births, now: int, x: Packet) {
    x.sentAt <= now && forall j :: j in x.beat ==> Caused(births, j, x.beat[j], x.sentAt)
  }

  ghost predicate QueueOk(births: Births, now: int, queue: seq<Packet>) {
    forall k :: 0 <= k < |queue| ==> PacketOk(births, now, queue[k])
  }

  /** Counters for a member, wherever they are stored or under way, never exceed its own, and no
      record is older than the moment its counter was reached. */
  ghost predicate Known(s: Group) {
    && WellFormed(s)
    && (forall k :: 0 <= k < |s.peers| ==>
          TableOk(s.births, s.now, s.peers[k].table) && QueueOk(s.births, s.now, s.peers[k].queue))
    && QueueOk(s.births, s.now, s.net)
  }

  /** Each member's own record holds its true counter. */
  ghost predicate Owned(s: Group) {
    WellFormed(s) && forall k :: 0 <= k < |s.peers| ==> OwnCount(s.peers[k].table, k) == |s.births[k]|
  }

  ghost predicate Causal(s: Group) {
    Known(s) && Owned(s)
  }

  ghost predicate Extends(births: Births, later: Births) {
    |later| == |births| && forall j :: 0 <= j < |births| ==> births[j] <= later[j]
  }

  /** What was caused stays caused. */
  lemma TableStillOk(births: Births, later: Births, now: int, late: int, table: Table)
    requires Extends(births, later) && now <= late && TableOk(births, now, table)
    ensures TableOk(later, late, table)
  {
    forall j | j in table ensures Caused(later, j, table[j], table[j].last) && table[j].last <= late {
      assert Caused(births, j, table[j], table[j].last);
    }
  }

  lemma QueueStillOk(births: Births, later: Births, now: int, late: int, queue: seq<Packet>)
    requires Extends(births, later) && now <= late && QueueOk(births, now, queue)
    ensures QueueOk(later, late, queue)
  {
    forall k | 0 <= k < |queue| ensures PacketOk(later, late, queue[k]) {
      assert PacketOk(births, now, queue[k]);
      forall j | j in queue[k].beat ensures Caused(later, j, queue[k].beat[j], queue[k].sentAt) {
        assert Caused(births, j, queue[k].beat[j], queue[k].sentAt);
      }
    }
  }

  lemma StillKnown(s: Group, births: Births, now: int)
    requires Known(s) && Extends(s.births, births) && s.now <= now
    ensures Known(s.(births := births, now := now))
  {
    forall k | 0 <= k < |s.peers|
      ensures TableOk(births, now, s.peers[k].table) && QueueOk(births, now, s.peers[k].queue)
    {
      TableStillOk(s.births, births, s.now, now, s.peers[k].table);
      QueueStillOk(s.births, births, s.now, now, s.peers[k].queue);
    }
    QueueStillOk(s.births, births, s.now, now, s.net);
  }

  lemma MergeAllIsOk(births: Births, now: int, table: Table, queue: seq<Packet>)
    requires TableOk(births, now, table) && QueueOk(births, now, queue)
    ensures TableOk(births, now, MergeAll(table, queue, now))
  {
    MergeAllFacts(table, queue, now);
    var r := MergeAll(table, queue, now);
    forall j | j in r ensures Caused(births, j, r[j], r[j].last) && r[j].last <= now {
      if j in table && r[j] == table[j] {
        assert Caused(births, j, table[j], table[j].last);
      } else {
        var k :| 0 <= k < |queue| && Carries(queue[k], j, r[j]);
        assert PacketOk(births, now, queue[k]);
        assert Caused(births, j, queue[k].beat[j], queue[k].sentAt);
      }
    }
  }

  function Born(births: Births, i: nat, now: int): Births
    requires i < |births|
  {
    births[i := births[i] + [now]]
  }

  /** The table a tick works on, after raising the own counter and merging. */
  lemma MergedIsOk(births: Births, now: int, i: nat, table: Table, queue: seq<Packet>)
    requires i < |births| && OwnCount(table, i) == |births[i]|
    requires TableOk(births, now, table) && QueueOk(births, now, queue)
    ensures TableOk(Born(births, i, now), now, Merged(table, i, queue, now))
  {
    var later := Born(births, i, now);
    TableStillOk(births, later, now, now, table);
    QueueStillOk(births, later, now, now, queue);
    var base := Raised(table, i, now);
    forall j | j in base ensures Caused(later, j, base[j], base[j].last) && base[j].last <= now {
      if j != i {
        assert Caused(later, j, table[j], table[j].last);
      }
    }
    MergeAllIsOk(later, now, base, queue);
  }

  lemma TickKeepsKnown(s: Group, i: nat, receivers: seq<nat>)
    requires Known(s) && i < |s.peers| && OwnCount(s.peers[i].table, i) == |s.births[i]|
    ensures Known(TickAt(s, i, receivers))
  {
    var later := Born(s.births, i, s.now);
    StillKnown(s, later, s.now);
    var merged := Merged(s.peers[i].table, i, s.peers[i].queue, s.now);
    MergedIsOk(s.births, s.now, i, s.peers[i].table, s.peers[i].queue);
    var kept := Clean(merged, s.now);
    assert TableOk(later, s.now, Stay(kept)) by {
      forall j | j in Stay(kept) ensures Caused(later, j, kept[j], kept[j].last) && kept[j].last <= s.now {
        assert Caused(later, j, merged[j], merged[j].last);
      }
    }
    PacketsOk(later, i, receivers, s.now, merged);
    var t := TickAt(s, i, receivers);
    forall k | 0 <= k < |t.peers|
      ensures TableOk(later, s.now, t.peers[k].table) && QueueOk(later, s.now, t.peers[k].queue)
    {
      if k != i {
        assert t.peers[k] == s.peers[k];
      }
    }
  }

  lemma TickKeepsOwned(s: Group, i: nat, receivers: seq<nat>)
    requires Causal(s) && i < |s.peers|
    ensures Owned(TickAt(s, i, receivers))
  {
    OwnRecordStays(s.births, s.now, i, s.peers[i].table, s.peers[i].queue);
    var t := TickAt(s, i, receivers);
    forall k | 0 <= k < |t.peers| ensures OwnCount(t.peers[k].table, k) == |t.births[k]| {
      if k != i {
        assert t.peers[k] == s.peers[k] && t.births[k] == s.births[k];
      }
    }
  }

  lemma PacketsOk(births: Births, i: nat, receivers: seq<nat>, now: int, merged: Table)
    requires TableOk(births, now, merged)
    ensures QueueOk(births, now, Packets(i, receivers, now, Beat(Clean(merged, now), now)))
  {
    var beat := Beat(Clean(merged, now), now);
    forall j | j in beat ensures Caused(births, j, beat[j], now) {
      assert Caused(births, j, merged[j], merged[j].last) && merged[j].last <= now;
    }
  }

  lemma QuietKeepsOwned(s: Group, a: Action)
    requires Owned(s) && !a.Tick? && Apply(s, a).Some?
    ensures Owned(Apply(s, a).value)
  {
    var t := Apply(s, a).value;
    forall k | 0 <= k < |t.peers| ensures OwnCount(t.peers[k].table, k) == |t.births[k]| {
      assert t.peers[k].table == s.peers[k].table;
    }
  }

  lemma RemovedPacketOk(births: Births, now: int, net: seq<Packet>, p: nat)
    requires QueueOk(births, now, net) && p < |net|
    ensures QueueOk(births, now, Without(net, p)) && PacketOk(births, now, net[p])
  {
    forall k | 0 <= k < |net| - 1 ensures PacketOk(births, now, Without(net, p)[k]) {
      assert Without(net, p)[k] == if k < p then net[k] else net[k + 1];
    }
  }

  lemma AddedPacketOk(births: Births, now: int, queue: seq<Packet>, x: Packet)
    requires QueueOk(births, now, queue) && PacketOk(births, now, x)
    ensures QueueOk(births, now, queue + [x])
  {
    forall k | 0 <= k <= |queue| ensures PacketOk(births, now, (queue + [x])[k]) {
      assert (queue + [x])[k] == if k < |queue| then queue[k] else x;
    }
  }

  lemma ArriveKeepsKnown(s: Group, p: nat)
    requires Known(s) && Apply(s, Arrive(p)).Some?
    ensures Known(Apply(s, Arrive(p)).value)
  {
    var t, x := Apply(s, Arrive(p)).value, s.net[p];
    RemovedPacketOk(s.births, s.now, s.net, p);
    forall k | 0 <= k < |t.peers|
      ensures TableOk(t.births, t.now, t.peers[k].table) && QueueOk(t.births, t.now, t.peers[k].queue)
    {
      AddedPacketOk(s.births, s.now, s.peers[k].queue, x);
      assert t.peers[k].table == s.peers[k].table;
    }
  }

  lemma LoseKeepsKnown(s: Group, p: nat)
    requires Known(s) && Apply(s, Lose(p)).Some?
    ensures Known(Apply(s, Lose(p)).value)
  {
    RemovedPacketOk(s.births, s.now, s.net, p);
  }

  lemma CrashKeepsKnown(s: Group, i: nat)
    requires Known(s) && Apply(s, Crash(i)).Some?
    ensures Known(Apply(s, Crash(i)).value)
  {
    var t := Apply(s, Crash(i)).value;
    forall k | 0 <= k < |t.peers|
      ensures TableOk(t.births, t.now, t.peers[k].table) && QueueOk(t.births, t.now, t.peers[k].queue)
    {
      assert t.peers[k].table == s.peers[k].table && t.peers[k].queue == s.peers[k].queue;
    }
  }

  /** Causality holds in every state of every run without restarts. */
  lemma StepKeepsCausal(s: Group, a: Action)
    requires Causal(s) && Apply(s, a).Some?
    ensures Causal(Apply(s, a).value)
  {
    match a
    case Tick(i, receivers) =>
      TickKeepsKnown(s, i, receivers);
      TickKeepsOwned(s, i, receivers);
    case Arrive(p) =>
      ArriveKeepsKnown(s, p);
      QuietKeepsOwned(s, a);
    case Lose(p) =>
      LoseKeepsKnown(s, p);
      QuietKeepsOwned(s, a);
    case Crash(i) =>
      CrashKeepsKnown(s, i);
      QuietKeepsOwned(s, a);
    case Advance(to) =>
      StillKnown(s, s.births, to);
      QuietKeepsOwned(s, a);
  }

  lemma MergedIsMonotone(births: Births, now: int, i: nat, table: Table, queue: seq<Packet>, j: nat)
    requires i < |births| && OwnCount(table, i) == |births[i]| && QueueOk(births, now, queue) && j in table
    ensures var r := Merged(table, i, queue, now); j in r && r[j].count >= table[j].count
  {
    MergeAllFacts(Raised(table, i, now), queue, now);
  }

  /** A tick never lets gossip overwrite the member's own record, and a counter stored about
      anybody else never goes down while its entry stays. */
  lemma TickIsMonotone(s: Group, i: nat, receivers: seq<nat>)
    requires Known(s) && i < |s.peers| && OwnCount(s.peers[i].table, i) == |s.births[i]|
    ensures var t := TickAt(s, i, receivers).peers[i].table;
      && i in t && t[i] == Record(|s.births[i]| + 1, s.now, false)
      && forall j :: j in s.peers[i].table && j in t ==> t[j].count >= s.peers[i].table[j].count
  {
    var v, t := s.peers[i], TickAt(s, i, receivers).peers[i].table;
    OwnRecordStays(s.births, s.now, i, v.table, v.queue);
    forall j | j in v.table && j in t ensures t[j].count >= v.table[j].count {
      MergedIsMonotone(s.births, s.now, i, v.table, v.queue, j);
    }
  }

  lemma OwnRecordStays(births: Births, now: int, i: nat, table: Table, queue: seq<Packet>)
    requires i < |births| && OwnCount(table, i) == |births[i]| && QueueOk(births, now, queue)
    ensures var r := Merged(table, i, queue, now);
      i in r && r[i] == Record(|births[i]| + 1, now, false)
  {
    var base := Raised(table, i, now);
    MergeAllFacts(base, queue, now);
    forall k | 0 <= k < |queue| && i in queue[k].beat ensures queue[k].beat[i].count <= |births[i]| {
      assert PacketOk(births, now, queue[k]);
      assert Caused(births, i, queue[k].beat[i], queue[k].sentAt);
    }
  }
}
