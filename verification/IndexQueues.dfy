/** What a node that has an index commands when it replicates with it, one file after the other in
    name order. */
module IndexQueues {
  import opened Collections
  import opened Options
  import opened Text
  import opened Addresses
  import opened Commands
  import opened MasterCode
  import F = FormerMasters
  import R = Replication
  import T = ReplicationTheorems

  // ---- what one index lacks ----

  predicate Fewer(index: R.Index, left: R.Members, f: string) {
    f in index && index[f] != {} && |index[f]| < R.Wanted(left)
  }

  predicate Surplus(index: R.Index, left: R.Members, f: string) {
    f in index && |index[f]| > R.Wanted(left)
  }

  /** The first file in name order that has not just the replicas it should have lacks some; after a
      surplus nothing would be commanded, as its sampling does not end. */
  ghost predicate StartsShort(index: R.Index, left: R.Members) {
    exists f :: ShortFirst(index, left, f)
  }

  ghost predicate ShortFirst(index: R.Index, left: R.Members, f: string) {
    Fewer(index, left, f) && forall g :: Less(g, f) ==> !Surplus(index, left, g)
  }

  ghost predicate NothingLacks(index: R.Index, left: R.Members) { forall f :: !Fewer(index, left, f) }

  ghost predicate NoSurplus(index: R.Index, left: R.Members) { forall f :: !Surplus(index, left, f) }

  // ---- the commands of one node ----

  predicate Fits(index: R.Index, members: seq<nat>) {
    && members != [] && |AsSet(members)| == |members| && 2 * |members| < INT_RANGE
    && F.IndexWithin(index, AsSet(members))
  }

  lemma FitsCount(index: R.Index, members: seq<nat>, f: string)
    requires Fits(index, members) && f in index
    ensures |members| + |index[f]| < INT_RANGE
  {
    SubsetSize(index[f], AsSet(members));
  }

  ghost function Outcomes(index: R.Index, members: seq<nat>, draws: string -> seq<nat>): map<string, Outcome>
    requires Fits(index, members)
  {
    map f | f in index && index[f] != {} ::
      FitsCount(index, members, f);
      Replicate(members, index[f], draws(f))
  }

  /** Enough is drawn for every file that lacks replicas. */
  ghost predicate Fair(index: R.Index, members: seq<nat>, draws: string -> seq<nat>)
    requires Fits(index, members)
  {
    forall f :: Fewer(index, AsSet(members), f) ==> !Outcomes(index, members, draws)[f].Unfinished?
  }

  /** The commands in the order of the names; an endless sampling loop is the end of it. */
  function QueueOf(names: seq<string>, outcomes: map<string, Outcome>): seq<Cmd> {
    if names == [] then []
    else if names[0] !in outcomes then QueueOf(names[1..], outcomes)
    else match outcomes[names[0]]
      case Nothing => QueueOf(names[1..], outcomes)
      case Unfinished => []
      case Command(source, targets) => [Cmd(names[0], source, targets)] + QueueOf(names[1..], outcomes)
  }

  lemma OutcomeOf(index: R.Index, members: seq<nat>, draws: string -> seq<nat>, f: string)
    requires Fits(index, members) && Fair(index, members, draws) && f in index && index[f] != {}
    ensures var r := Outcomes(index, members, draws)[f];
      && (r.Command? <==> Fewer(index, AsSet(members), f))
      && (r.Unfinished? <==> Surplus(index, AsSet(members), f))
      && (r.Command? ==> R.Choice(AsSet(members), index[f], r.targets) && r.source in index[f])
  {
    FitsCount(index, members, f);
    ReplicateIsAChoice(members, index[f], draws(f));
  }

  lemma {:induction false} QueueStarts(index: R.Index, members: seq<nat>, draws: string -> seq<nat>, names: seq<string>)
    requires Fits(index, members) && Fair(index, members, draws)
    ensures var queue := QueueOf(names, Outcomes(index, members, draws));
      queue != [] ==>
        exists k :: StartsAt(index, members, draws, names, k) && Heads(queue, names[k], index, members, draws)
    ensures forall k :: StartsAt(index, members, draws, names, k) ==>
      Heads(QueueOf(names, Outcomes(index, members, draws)), names[k], index, members, draws)
    decreases |names|
  {
    var outcomes := Outcomes(index, members, draws);
    if names != [] {
      var f, rest := names[0], names[1..];
      QueueStarts(index, members, draws, rest);
      if f in outcomes {
        OutcomeOf(index, members, draws, f);
      }
      if f in outcomes && outcomes[f].Command? {
        assert StartsAt(index, members, draws, names, 0);
      } else {
        if k :| StartsAt(index, members, draws, rest, k) && !(f in outcomes && outcomes[f].Unfinished?) {
          assert StartsAt(index, members, draws, names, k + 1);
        }
        forall k | StartsAt(index, members, draws, names, k)
          ensures k > 0 && StartsAt(index, members, draws, rest, k - 1)
        {
        }
      }
    }
  }

  ghost predicate StartsAt(index: R.Index, members: seq<nat>, draws: string -> seq<nat>, names: seq<string>, k: int)
    requires Fits(index, members)
  {
    && 0 <= k < |names| && Fewer(index, AsSet(members), names[k])
    && forall j :: 0 <= j < k ==> !Surplus(index, AsSet(members), names[j]) && !Fewer(index, AsSet(members), names[j])
  }

  ghost predicate Heads(queue: seq<Cmd>, f: string, index: R.Index, members: seq<nat>, draws: string -> seq<nat>)
    requires Fits(index, members)
  {
    var outcomes := Outcomes(index, members, draws);
    && queue != [] && f in outcomes && outcomes[f].Command?
    && queue[0] == Cmd(f, outcomes[f].source, outcomes[f].targets)
  }

  lemma FirstOf(index: R.Index, members: seq<nat>, draws: string -> seq<nat>, names: seq<string>, p: nat)
    returns (k: nat)
    requires Fits(index, members) && Ascending(names) && NoDuplicates(names)
    requires p < |names| && ShortFirst(index, AsSet(members), names[p])
    ensures StartsAt(index, members, draws, names, k)
  {
    k := 0;
    while !Fewer(index, AsSet(members), names[k])
      invariant k <= p && forall j :: 0 <= j < k ==> !Fewer(index, AsSet(members), names[j])
      decreases p - k
    {
      k := k + 1;
    }
    forall j | 0 <= j < k ensures !Surplus(index, AsSet(members), names[j]) {
      LessTotal(names[j], names[p]);
    }
  }

  /** A node commands something if and only if its index starts short. */
  lemma QueueExactly(index: R.Index, members: seq<nat>, draws: string -> seq<nat>, names: seq<string>)
    requires Fits(index, members) && Fair(index, members, draws)
    requires Ascending(names) && NoDuplicates(names) && forall f :: f in index ==> f in names
    ensures QueueOf(names, Outcomes(index, members, draws)) != [] <==> StartsShort(index, AsSet(members))
  {
    QueueStarts(index, members, draws, names);
    if StartsShort(index, AsSet(members)) {
      var f :| ShortFirst(index, AsSet(members), f);
      var p :| 0 <= p < |names| && names[p] == f;
      var k := FirstOf(index, members, draws, names, p);
      assert StartsAt(index, members, draws, names, k);
    } else if k :| StartsAt(index, members, draws, names, k) {
      forall g | Less(g, names[k]) ensures !Surplus(index, AsSet(members), g) {
        if g in names {
          var j :| 0 <= j < |names| && names[j] == g;
          LessTotal(g, names[k]);
        }
      }
      assert ShortFirst(index, AsSet(members), names[k]);
    }
  }

  // ---- draws that reach a given member ----

  /** For a file that lacks replicas every member left can be drawn, as the source if it has the file
      and as a target otherwise. */
  lemma CanInvolve(members: seq<nat>, holders: R.Members, c: nat) returns (draws: seq<nat>)
    requires members != [] && |AsSet(members)| == |members| && |members| + |holders| < INT_RANGE
    requires holders != {} && holders <= AsSet(members) && |holders| < R.Wanted(AsSet(members)) && c in members
    ensures var r := Replicate(members, holders, draws);
      r.Command? && (if c in holders then r.source == c else c in r.targets)
  {
    var left := AsSet(members);
    var n := R.Wanted(left) - |holders|;
    assert |left - holders| == |left| - |holders|;
    if c in holders {
      var targets := T.SomeSubset(left - holders, n);
      draws := ChoiceCanBeDrawn(members, holders, targets, c);
    } else {
      var source :| source in holders;
      assert c in left - holders && |left - holders - {c}| == |left - holders| - 1;
      var others := T.SomeSubset(left - holders - {c}, n - 1);
      assert |others + {c}| == n;
      draws := ChoiceCanBeDrawn(members, holders, others + {c}, source);
    }
  }

  ghost predicate Involves(members: seq<nat>, holders: R.Members, c: nat, draws: seq<nat>)
    requires members != [] && |members| + |holders| < INT_RANGE
  {
    var r := Replicate(members, holders, draws);
    r.Command? && (if c in holders then r.source == c else c in r.targets)
  }

  ghost function DrawsFor(index: R.Index, members: seq<nat>, c: nat, f: string): (draws: seq<nat>)
    requires Fits(index, members) && c in members
    ensures Fewer(index, AsSet(members), f) ==>
      |members| + |index[f]| < INT_RANGE && Involves(members, index[f], c, draws)
  {
    if Fewer(index, AsSet(members), f) then
      FitsCount(index, members, f);
      SomethingInvolves(members, index[f], c);
      var draws :| Involves(members, index[f], c, draws);
      draws
    else []
  }

  lemma SomethingInvolves(members: seq<nat>, holders: R.Members, c: nat)
    requires members != [] && |AsSet(members)| == |members| && |members| + |holders| < INT_RANGE
    requires holders != {} && holders <= AsSet(members) && |holders| < R.Wanted(AsSet(members)) && c in members
    ensures exists draws :: Involves(members, holders, c, draws)
  {
    var draws := CanInvolve(members, holders, c);
    assert Involves(members, holders, c, draws);
  }
}
