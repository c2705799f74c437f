/** The election code of one daemon: string ids, the membership list, and the handlers that
    change the candidate's fields.  Ids become ranks because the membership list is sorted. */
module CandidateCode {
  import opened Collections
  import opened Options
  import opened Text
  import opened Election

  /** The membership list is read off an ordered map, so it is strictly sorted. */
  predicate Sorted(ids: seq<string>) {
    forall i, j :: 0 <= i < j < |ids| ==> Less(ids[i], ids[j])
  }

  /** The ids smaller than id, in list order. */
  function LowerIds(ids: seq<string>, id: string): seq<string> {
    if ids == [] then [] else (if Less(ids[0], id) then [ids[0]] else []) + LowerIds(ids[1..], id)
  }

  lemma {:induction false} LowerNone(ids: seq<string>, id: string)
    requires forall i :: 0 <= i < |ids| ==> !Less(ids[i], id)
    ensures LowerIds(ids, id) == []
  {
    if ids != [] {
      LowerNone(ids[1..], id);
    }
  }

  /** In a sorted list the ids below the one at rank r are exactly the r first ones. */
  lemma {:induction false} LowerIdsAreLowerRanks(ids: seq<string>, r: nat)
    requires Sorted(ids) && r < |ids|
    ensures LowerIds(ids, ids[r]) == ids[..r]
  {
    if r == 0 {
      forall i | 0 <= i < |ids| ensures !Less(ids[i], ids[0]) {
        LessTotal(ids[0], ids[i]);
      }
      LowerNone(ids, ids[0]);
    } else {
      LowerIdsAreLowerRanks(ids[1..], r - 1);
      assert ids[1..][r - 1] == ids[r];
      assert ids[..r] == [ids[0]] + ids[1..][..r - 1];
    }
  }

  /** The scan with find_if, from one match to the next. */
  method FindLowerIds(ids: seq<string>, id: string) returns (result: seq<string>)
    ensures result == LowerIds(ids, id)
  {
    result := [];
    var it := 0;
    while it < |ids|
      invariant it <= |ids|
      invariant result + LowerIds(ids[it..], id) == LowerIds(ids, id)
    {
      assert ids[it..][1..] == ids[it + 1..];
      if Less(ids[it], id) {
        assert result + ([ids[it]] + LowerIds(ids[it + 1..], id)) == (result + [ids[it]]) + LowerIds(ids[it + 1..], id);
        result := result + [ids[it]];
      } else {
        assert LowerIds(ids[it..], id) == LowerIds(ids[it + 1..], id);
      }
      it := it + 1;
    }
  }

  /** std::min_element. */
  method MinElement(ids: seq<string>) returns (k: nat)
    requires ids != []
    ensures k < |ids|
    ensures forall i :: 0 <= i < |ids| ==> !Less(ids[i], ids[k])
  {
    k := 0;
    LessTotal(ids[0], ids[0]);
    for i := 1 to |ids|
      invariant k < i
      invariant forall j :: 0 <= j < i ==> !Less(ids[j], ids[k])
    {
      LessTotal(ids[i], ids[i]);
      if Less(ids[i], ids[k]) {
        forall j | 0 <= j < i ensures !Less(ids[j], ids[i]) {
          if Less(ids[j], ids[i]) {
            LessTransitive(ids[j], ids[i], ids[k]);
          }
        }
        k := i;
      }
    }
  }

  lemma SortedIsDistinct(members: seq<string>)
    requires Sorted(members)
    ensures NoDuplicates(members)
  {
    forall i, j | 0 <= i < j < |members| ensures members[i] != members[j] {
      LessTotal(members[i], members[i]);
    }
  }

  /** The messages NEW_LEADER to a list of members. */
  function Announced(rank: nat, members: seq<string>, to: seq<string>): seq<Token> {
    seq(|to|, j requires 0 <= j < |to| => Announce(rank, Find(members, to[j])))
  }

  /** The messages ELECTION_START to a list of members. */
  function Requested(rank: nat, thread: nat, members: seq<string>, to: seq<string>): seq<Token> {
    seq(|to|, j requires 0 <= j < |to| => Request(rank, thread, Find(members, to[j])))
  }

  lemma AnnouncedToAll(rank: nat, members: seq<string>)
    requires Sorted(members)
    ensures Announced(rank, members, members) == Announcements(rank, |members|)
  {
    SortedIsDistinct(members);
    forall j | 0 <= j < |members| ensures Find(members, members[j]) == j {
      FindDistinct(members, j);
    }
  }

  lemma RequestedOfLower(rank: nat, thread: nat, members: seq<string>)
    requires Sorted(members) && rank <= |members|
    ensures Requested(rank, thread, members, members[..rank]) == Requests(rank, thread)
  {
    SortedIsDistinct(members);
    forall j | 0 <= j < rank ensures Find(members, members[..rank][j]) == j {
      FindDistinct(members, j);
    }
  }

  class Candidate {
    var started: bool
    var okReceived: bool
    var leader: Option<nat>
    var previousLeader: Option<nat>
    var expectedConfirmations: nat
    var receivedConfirmations: nat

    ghost function View(): Node
      reads this
    {
      Node(started, okReceived, leader, previousLeader, expectedConfirmations, receivedConfirmations)
    }

    constructor ()
      ensures View() == Node(false, false, None, None, 0, 0)
    {
      started, okReceived, leader, previousLeader := false, false, None, None;
      expectedConfirmations, receivedConfirmations := 0, 0;
    }

    /** The locked part of the election thread. */
    method PassGate() returns (passed: bool)
      modifies this
      ensures passed <==> !old(started)
      ensures View() == if passed then Pass(old(View())) else old(View())
    {
      passed := !started;
      if passed {
        started := true;
      }
    }

    /** The rest of the election thread of the member whose id has the given rank, up to where it
        waits for its requests.  It reports to whom it announces itself and whom it asks. */
    method ElectionThread(members: seq<string>, rank: nat, ghost thread: nat)
      returns (elected: seq<string>, asked: seq<string>)
      requires Sorted(members) && rank < |members|
      modifies this
      ensures View() == Proceed(old(View()), rank, |members|)
      ensures Proceeds(rank, |members|, thread) ==
              (if rank == 0 then [] else [Waiting(rank, thread)])
              + Announced(rank, members, elected) + Requested(rank, thread, members, asked)
    {
      elected, asked := [], [];
      var min := MinElement(members);
      SortedIsDistinct(members);
      assert !Less(members[0], members[min]);
      assert min == 0;
      LessTotal(members[0], members[0]);
      assert rank > 0 ==> Less(members[0], members[rank]);
      if members[min] == members[rank] {
        expectedConfirmations, receivedConfirmations := |members|, 0;
        elected := members;
        AnnouncedToAll(rank, members);
      } else {
        asked := FindLowerIds(members, members[rank]);
        LowerIdsAreLowerRanks(members, rank);
        okReceived := false;
        RequestedOfLower(rank, thread, members);
      }
    }

    method SetOkReceived()
      modifies this
      ensures View() == OnOk(old(View()))
    {
      okReceived := true;
    }

    /** The end of sendElectionStart, after all requests have been joined: it announces itself to
        exactly those members that the waiting thread of the model does. */
    method RequestsJoined(members: seq<string>, rank: nat) returns (elected: seq<string>)
      requires Sorted(members) && rank < |members|
      ensures Announced(rank, members, elected) == Joined(View(), rank, |members|)
    {
      elected := [];
      if !okReceived {
        elected := members;
        AnnouncedToAll(rank, members);
      }
    }

    /** The listeners hear of a leader only if it is not the one they have heard of last. */
    method SetNewLeader(id: nat) returns (notified: bool)
      modifies this
      ensures View() == NewLeader(old(View()), id)
      ensures notified <==> old(previousLeader) != Some(id)
    {
      leader := Some(id);
      notified := previousLeader != Some(id);
      if notified {
        previousLeader := Some(id);
      }
      started := false;
    }

    /** NEW_LEADER received by the member of rank self; a confirmation is always sent back. */
    method ProcessNewLeader(self: nat, id: nat)
      modifies this
      ensures View() == OnAnnounce(old(View()), self, id)
    {
      if id != self {
        var _ := SetNewLeader(id);
      }
    }

    /** ELECT_CONFIRM received by the member of rank self. */
    method ProcessConfirm(self: nat)
      modifies this
      ensures View() == OnConfirm(old(View()), self)
    {
      receivedConfirmations := receivedConfirmations + 1;
      if expectedConfirmations == receivedConfirmations {
        var _ := SetNewLeader(self);
      }
    }
  }
}
