/** The address list that a heartbeat handler hands to the overlay. */
module Addresses {
  import opened Text

  datatype Entry = Entry(id: string, leaving: bool)

  predicate Ascending(list: seq<string>) {
    forall i, j :: 0 <= i < j < |list| ==> !Less(list[j], list[i])
  }

  /** The received members; a second entry for an id is ignored. */
  function Received(beat: seq<Entry>): map<string, bool> {
    if beat == [] then map[] else
    var before, e := Received(beat[..|beat| - 1]), beat[|beat| - 1];
    if e.id in before then before else before[e.id := e.leaving]
  }

  /** The ids listed as still in the group. */
  function Staying(beat: seq<Entry>, members: map<string, bool>): seq<string> {
    if beat == [] then [] else
    var e := beat[|beat| - 1];
    Staying(beat[..|beat| - 1], members) + if e.id in members && !members[e.id] then [e.id] else []
  }

  lemma {:induction false} AllReceived(beat: seq<Entry>)
    ensures forall e :: e in beat ==> e.id in Received(beat)
  {
    if beat != [] {
      AllReceived(beat[..|beat| - 1]);
      assert beat == beat[..|beat| - 1] + [beat[|beat| - 1]];
    }
  }

  /** The first entry of the heartbeat for this id says that it stays. */
  ghost predicate FirstStays(beat: seq<Entry>, id: string) {
    exists k :: FirstStaysAt(beat, id, k)
  }

  predicate FirstStaysAt(beat: seq<Entry>, id: string, k: int) {
    && 0 <= k < |beat| && beat[k].id == id && !beat[k].leaving
    && forall j :: 0 <= j < k ==> beat[j].id != id
  }

  function IdsOf(beat: seq<Entry>): seq<string> { seq(|beat|, i requires 0 <= i < |beat| => beat[i].id) }

  lemma {:induction false} ReceivedIsFirst(beat: seq<Entry>, id: string)
    ensures id in Received(beat) <==> id in IdsOf(beat)
    ensures id in Received(beat) && !Received(beat)[id] <==> FirstStays(beat, id)
  {
    if beat != [] {
      var before, last := beat[..|beat| - 1], |beat| - 1;
      ReceivedIsFirst(before, id);
      assert IdsOf(beat) == IdsOf(before) + [beat[last].id];
      if k :| FirstStaysAt(before, id, k) {
        assert FirstStaysAt(beat, id, k);
      }
      if k :| FirstStaysAt(beat, id, k) {
        if k < last {
          assert FirstStaysAt(before, id, k);
        } else {
          forall j | 0 <= j < last ensures IdsOf(before)[j] != id {
            assert IdsOf(before)[j] == beat[j].id;
          }
        }
      }
      if id !in IdsOf(before) && beat[last].id == id && !beat[last].leaving {
        forall j | 0 <= j < last ensures beat[j].id != id {
          assert IdsOf(before)[j] == beat[j].id;
        }
        assert FirstStaysAt(beat, id, last);
      }
    }
  }

  lemma {:induction false} StayingCounted(beat: seq<Entry>, members: map<string, bool>, id: string)
    ensures multiset(Staying(beat, members))[id] ==
            if id in members && !members[id] then multiset(IdsOf(beat))[id] else 0
  {
    if beat != [] {
      var before, e := beat[..|beat| - 1], beat[|beat| - 1];
      StayingCounted(before, members, id);
      assert IdsOf(beat) == IdsOf(before) + [e.id];
    }
  }

  /** The list without its making: an id stays if its first entry says so, and is then listed as often
      as it occurs in the heartbeat. */
  lemma StayingExactly(beat: seq<Entry>, id: string)
    ensures multiset(Staying(beat, Received(beat)))[id] ==
            if FirstStays(beat, id) then multiset(IdsOf(beat))[id] else 0
    ensures FirstStays(beat, id) ==> multiset(IdsOf(beat))[id] > 0
  {
    ReceivedIsFirst(beat, id);
    StayingCounted(beat, Received(beat), id);
  }

  /** An id is listed exactly if its first entry in the heartbeat says that it stays, and then as
      often as it occurs there. */
  ghost predicate ListsStaying(list: seq<string>, beat: seq<Entry>) {
    && (forall id :: id in list <==> FirstStays(beat, id))
    && forall id :: id in list ==> multiset(list)[id] == multiset(IdsOf(beat))[id]
  }

  lemma StayingIsListed(list: seq<string>, beat: seq<Entry>)
    requires multiset(list) == multiset(Staying(beat, Received(beat)))
    ensures ListsStaying(list, beat)
  {
    forall id ensures multiset(list)[id] == if FirstStays(beat, id) then multiset(IdsOf(beat))[id] else 0
              ensures id in list <==> FirstStays(beat, id) {
      StayingExactly(beat, id);
      assert id in list <==> multiset(list)[id] > 0;
    }
  }

  lemma IsReceived(beat: seq<Entry>, k: nat)
    requires k < |beat|
    ensures beat[k].id in Received(beat)
  {
    AllReceived(beat);
    assert beat[k] in beat;
  }

  /** The part of the heartbeat handler that reads the entries; insert does not replace one. */
  method ReadHeartbeat(beat: seq<Entry>) returns (members: map<string, bool>)
    ensures members == Received(beat)
  {
    members := map[];
    for k := 0 to |beat|
      invariant members == Received(beat[..k])
    {
      assert beat[..k + 1][..k] == beat[..k];
      if beat[k].id !in members {
        members := members[beat[k].id := beat[k].leaving];
      }
    }
    assert beat[..|beat|] == beat;
  }

  /** The part that lists the members still in the group, sorted. */
  method MemberAddresses(beat: seq<Entry>) returns (list: seq<string>)
    ensures Ascending(list) && ListsStaying(list, beat)
  {
    var members := ReadHeartbeat(beat);
    list := [];
    for k := 0 to |beat|
      invariant Ascending(list) && multiset(list) == multiset(Staying(beat[..k], members))
    {
      assert beat[..k + 1][..k] == beat[..k];
      IsReceived(beat, k);
      if !members[beat[k].id] {
        list := Insert(list, beat[k].id);
      }
    }
    assert beat[..|beat|] == beat;
    StayingIsListed(list, beat);
  }

  /** One round of the sort: x goes before the first larger element. */
  method Insert(list: seq<string>, x: string) returns (r: seq<string>)
    requires Ascending(list)
    ensures Ascending(r) && multiset(r) == multiset(list) + multiset{x}
  {
    var k: nat := |list|;
    while k > 0 && Less(x, list[k - 1])
      invariant k <= |list|
      invariant forall j :: k <= j < |list| ==> Less(x, list[j])
    {
      k := k - 1;
    }
    r := list[..k] + [x] + list[k..];
    assert list == list[..k] + list[k..];
    forall i, j | 0 <= i < j < |r| ensures !Less(r[j], r[i]) {
      InsertedInOrder(list, x, k, i, j);
    }
  }

  lemma InsertedInOrder(list: seq<string>, x: string, k: nat, i: nat, j: nat)
    requires Ascending(list) && k <= |list| && (k > 0 ==> !Less(x, list[k - 1]))
    requires forall m :: k <= m < |list| ==> Less(x, list[m])
    requires i < j < |list| + 1
    ensures var r := list[..k] + [x] + list[k..]; !Less(r[j], r[i])
  {
    if j == k && i < k - 1 {
      NotLessTransitive(x, list[k - 1], list[i]);
    } else if i == k {
      LessTotal(x, list[j - 1]);
    }
  }

  lemma NotLessTransitive(a: string, b: string, c: string)
    requires !Less(a, b) && !Less(b, c)
    ensures !Less(a, c)
  {
    LessTotal(a, b);
    LessTotal(b, c);
    if Less(a, c) && Less(b, a) {
      LessTransitive(b, a, c);
    }
  }

  lemma HeadIsLeast(a: seq<string>, x: string)
    requires Ascending(a) && x in a
    ensures !Less(x, a[0])
  {
    LessTotal(x, x);
  }

  /** Why sorting matters: members that received the same ids, in any order, build the same list,
      so a position in it means the same to all of them. */
  lemma {:induction false} SameMembersSameList(a: seq<string>, b: seq<string>)
    requires Ascending(a) && Ascending(b) && multiset(a) == multiset(b)
    ensures a == b
  {
    assert |multiset(a)| == |a| && |multiset(b)| == |b|;
    if a != [] {
      HeadsAgree(a, b);
      assert a == [a[0]] + a[1..] && b == [b[0]] + b[1..];
      TailIsAscending(a);
      TailIsAscending(b);
      assert multiset(a[1..]) == multiset(a) - multiset{a[0]} == multiset(b[1..]);
      SameMembersSameList(a[1..], b[1..]);
    }
  }

  lemma HeadsAgree(a: seq<string>, b: seq<string>)
    requires Ascending(a) && Ascending(b) && multiset(a) == multiset(b) && a != [] && b != []
    ensures a[0] == b[0]
  {
    assert a[0] in multiset(b) && b[0] in multiset(a);
    HeadIsLeast(a, b[0]);
    HeadIsLeast(b, a[0]);
    LessTotal(a[0], b[0]);
  }

  lemma TailIsAscending(a: seq<string>)
    requires a != [] && Ascending(a)
    ensures Ascending(a[1..])
  {
  }
}
