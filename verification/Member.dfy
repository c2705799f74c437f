/** The membership code of one daemon: records that are updated in place, and the two halves of the
    heartbeat thread.  Each is tied to the step that the gossip model takes. */
module Membership {
  import opened Gossip

  class Member {
    var count: int
    var lastUpdate: int
    var leaving: bool

    function View(): Record
      reads this
    {
      Record(count, lastUpdate, leaving)
    }

    constructor (r: Record)
      ensures View() == r
    {
      count, lastUpdate, leaving := r.count, r.last, r.leaving;
    }

    method Update(newCount: int, timestamp: int, isLeaving: bool)
      modifies this
      ensures View() == Record(newCount, timestamp, isLeaving)
    {
      count, lastUpdate, leaving := newCount, timestamp, isLeaving;
    }

    /** Takes over a record with a larger counter, stamped with the local time. */
    method UpdateFrom(theirs: Record, now: int)
      modifies this
      ensures View() == Refresh(old(View()), theirs, now)
    {
      if theirs.count > count {
        count, lastUpdate, leaving := theirs.count, now, theirs.leaving;
      }
    }

    method TimedOut(now: int) returns (b: bool)
      ensures b == IsTimedOut(View(), now)
    {
      var duration := (now - lastUpdate) / NANOS_PER_MILLI;
      b := duration > T_FAIL;
    }

    method CleanUp(now: int) returns (b: bool)
      ensures b == ShouldBeCleanUp(View(), now)
    {
      var duration := (now - lastUpdate) / NANOS_PER_MILLI;
      b := duration > T_FAIL + T_CLEANUP && !leaving;
    }
  }

  class DMember {
    const id: nat
    var memberMap: map<nat, Member>
    var membersQueue: seq<Table>
    ghost var Repr: set<Member>

    constructor (id: nat)
      ensures Valid() && View() == map[] && membersQueue == [] && Repr == {} && this.id == id
    {
      this.id := id;
      memberMap, membersQueue, Repr := map[], [], {};
    }

    /** No record is shared between two members. */
    ghost predicate Valid()
      reads this`memberMap, this`Repr
    {
      && (forall i :: i in memberMap ==> memberMap[i] in Repr)
      && (forall i, j :: i in memberMap && j in memberMap && memberMap[i] == memberMap[j] ==> i == j)
    }

    ghost function View(): Table
      requires Valid()
      reads this`memberMap, this`Repr, Repr
    {
      map i | i in memberMap :: memberMap[i].View()
    }

    method PushMembersToQueue(members: Table)
      modifies this`membersQueue
      ensures membersQueue == old(membersQueue) + [members]
    {
      membersQueue := membersQueue + [members];
    }

    /** One entry of a received heartbeat. */
    method MergeOne(j: nat, theirs: Record, now: int)
      requires Valid()
      modifies this`memberMap, this`Repr, Repr
      ensures Valid() && fresh(Repr - old(Repr))
      ensures View() == Merge(old(View()), map[j := theirs], now)
    {
      ghost var before := View();
      if j in memberMap {
        memberMap[j].UpdateFrom(theirs, now);
        OneChanged(before, j);
      } else if !theirs.leaving {
        Join(j, theirs.(last := now));
      }
    }

    /** Changing one member's record changes one entry of the table. */
    lemma OneChanged(before: Table, j: nat)
      requires Valid() && j in memberMap && before.Keys == memberMap.Keys
      requires forall i :: i in memberMap && i != j ==> before[i] == memberMap[i].View()
      ensures View() == before[j := memberMap[j].View()]
    {
    }

    /** memberMap[j] = a new record, for a member not yet known. */
    method Join(j: nat, r: Record)
      requires Valid() && j !in memberMap
      modifies this`memberMap, this`Repr
      ensures Valid() && fresh(Repr - old(Repr))
      ensures View() == old(View())[j := r] && memberMap.Keys == old(memberMap.Keys) + {j}
    {
      var joined := new Member(r);
      memberMap, Repr := memberMap[j := joined], Repr + {joined};
    }

    /** memberMap.erase for every one of a list of members. */
    method Erase(gone: set<nat>)
      requires Valid()
      modifies this`memberMap
      ensures Valid()
      ensures View() == Minus(old(View()), gone)
    {
      memberMap := map j | j in memberMap && j !in gone :: memberMap[j];
    }

    /** One received heartbeat, entry by entry, in whatever order the map yields them. */
    method MergeBeat(beat: Table, now: int)
      requires Valid()
      modifies this`memberMap, this`Repr, Repr
      ensures Valid() && fresh(Repr - old(Repr))
      ensures View() == Merge(old(View()), beat, now)
    {
      var rest := beat.Keys;
      ghost var start, part := View(), map[];
      while rest != {}
        invariant Valid() && fresh(Repr - old(Repr))
        invariant rest <= beat.Keys && part == map j | j in beat && j !in rest :: beat[j]
        invariant View() == Merge(start, part, now)
      {
        var j :| j in rest;
        ghost var before := View();
        MergeOne(j, beat[j], now);
        rest := rest - {j};
        MergeSplits(start, part, j, beat[j], now);
        part := part[j := beat[j]];
      }
      assert part == beat;
    }

    /** Every round: raise the own counter, merge everything received, drop whoever was silent. */
    method UpdateMembers(now: int) returns (failed: set<nat>)
      requires Valid()
      modifies this, Repr
      ensures Valid() && fresh(Repr - old(Repr)) && membersQueue == []
      ensures var merged := MergeAllBeats(Raised(old(View()), id, now), old(membersQueue), now);
        View() == Clean(merged, now) && failed == merged.Keys - Clean(merged, now).Keys
    {
      var memberMaps := membersQueue;
      membersQueue := [];
      RaiseSelf(now);
      MergeQueue(memberMaps, now);
      failed := DropSilent(now);
    }

    /** The clean-up at the end of a round. */
    method DropSilent(now: int) returns (failed: set<nat>)
      requires Valid()
      modifies this`memberMap
      ensures Valid()
      ensures View() == Clean(old(View()), now) && failed == old(View()).Keys - Clean(old(View()), now).Keys
    {
      failed := Silent(now);
      Erase(failed);
    }

    method MergeQueue(memberMaps: seq<Table>, now: int)
      requires Valid()
      modifies this`memberMap, this`Repr, Repr
      ensures Valid() && fresh(Repr - old(Repr))
      ensures View() == MergeAllBeats(old(View()), memberMaps, now)
    {
      ghost var base := View();
      for k := 0 to |memberMaps|
        invariant Valid() && fresh(Repr - old(Repr))
        invariant View() == MergeAllBeats(base, memberMaps[..k], now)
      {
        MergeBeat(memberMaps[k], now);
        OneMoreBeat(base, memberMaps, k, now);
      }
      assert memberMaps[..|memberMaps|] == memberMaps;
    }

    /** The first round creates the own record. */
    method InitSelf(now: int)
      requires Valid()
      modifies this`memberMap, this`Repr
      ensures Valid() && fresh(Repr - old(Repr)) && id in memberMap
      ensures View() == if id in old(View()) then old(View()) else old(View())[id := Record(0, now, false)]
    {
      if id !in memberMap {
        Join(id, Record(0, now, false));
      }
    }

    method RaiseSelf(now: int)
      requires Valid()
      modifies this`memberMap, this`Repr, Repr
      ensures Valid() && fresh(Repr - old(Repr))
      ensures View() == Raised(old(View()), id, now)
    {
      InitSelf(now);
      ghost var before := View();
      var self := memberMap[id];
      self.Update(self.count + 1, now, false);
      OneChanged(before, id);
    }

    method Silent(now: int) returns (failed: set<nat>)
      requires Valid()
      ensures Minus(View(), failed) == Clean(View(), now) && failed == View().Keys - Clean(View(), now).Keys
    {
      failed := {};
      var rest := memberMap.Keys;
      while rest != {}
        invariant rest <= memberMap.Keys
        invariant forall j :: j in failed <==> j in memberMap && j !in rest && ShouldBeCleanUp(memberMap[j].View(), now)
      {
        var j :| j in rest;
        var silent := memberMap[j].CleanUp(now);
        if silent {
          failed := failed + {j};
        }
        rest := rest - {j};
      }
    }

    /** The report on all members, and which of them are leaving. */
    method Report(now: int) returns (beat: Table, leavingNodes: set<nat>)
      requires Valid()
      ensures beat == Beat(View(), now)
      ensures Minus(View(), leavingNodes) == Stay(View())
    {
      beat, leavingNodes := map[], {};
      var rest := memberMap.Keys;
      while rest != {}
        invariant rest <= memberMap.Keys
        invariant forall j :: j in leavingNodes <==> j in memberMap && j !in rest && memberMap[j].leaving
        invariant beat == map j | j in memberMap && j !in rest && Reported(j, now) :: memberMap[j].View()
      {
        var j :| j in rest;
        var m := memberMap[j];
        var suspect := m.TimedOut(now);
        if m.leaving {
          beat := beat[j := Record(m.count, m.lastUpdate, m.leaving)];
          leavingNodes := leavingNodes + {j};
        } else if !suspect {
          beat := beat[j := Record(m.count, m.lastUpdate, m.leaving)];
        }
        rest := rest - {j};
      }
    }

    predicate Reported(j: nat, now: int)
      requires j in memberMap
      reads this`memberMap, memberMap[j]
    {
      memberMap[j].leaving || !IsTimedOut(memberMap[j].View(), now)
    }

    /** What is sent: members that are leaving or not suspect; the leaving ones are then dropped. */
    method CreateHeartbeat(now: int) returns (beat: Table)
      requires Valid()
      modifies this`memberMap
      ensures Valid()
      ensures beat == Beat(old(View()), now) && View() == Stay(old(View()))
    {
      var leavingNodes;
      beat, leavingNodes := Report(now);
      Erase(leavingNodes);
    }
  }

  function Minus(table: Table, gone: set<nat>): Table {
    map j | j in table && j !in gone :: table[j]
  }

  function MergeAllBeats(table: Table, beats: seq<Table>, now: int): Table {
    if beats == [] then table
    else Merge(MergeAllBeats(table, beats[..|beats| - 1], now), beats[|beats| - 1], now)
  }

  lemma OneMoreBeat(table: Table, beats: seq<Table>, k: nat, now: int)
    requires k < |beats|
    ensures MergeAllBeats(table, beats[..k + 1], now) == Merge(MergeAllBeats(table, beats[..k], now), beats[k], now)
  {
    assert beats[..k + 1][..k] == beats[..k];
  }

  /** The queue of packets in the group model is this queue with the envelopes left on. */
  lemma {:induction false} MergeAllIgnoresEnvelopes(table: Table, queue: seq<Packet>, beats: seq<Table>, now: int)
    requires |beats| == |queue| && forall k :: 0 <= k < |queue| ==> beats[k] == queue[k].beat
    ensures MergeAllBeats(table, beats, now) == MergeAll(table, queue, now)
    decreases |queue|
  {
    if queue != [] {
      MergeAllIgnoresEnvelopes(table, queue[..|queue| - 1], beats[..|beats| - 1], now);
    }
  }

  /** Entries of one heartbeat concern different members, so they can be merged one at a time. */
  lemma MergeSplits(table: Table, part: Table, j: nat, r: Record, now: int)
    requires j !in part
    ensures Merge(table, part[j := r], now) == Merge(Merge(table, part, now), map[j := r], now)
  {
  }
}
