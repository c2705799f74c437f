/** The code of the replication master and of a member's local file list. */
module MasterCode {
  import opened Collections
  import opened Options
  import F = FormerMasters
  import R = Replication

  // ---- drawing members at random ----

  /** The members drawn, rand() being given as a list of numbers. */
  function Draw(members: seq<nat>, draw: nat): nat
    requires members != []
  {
    members[draw % |members|]
  }

  /** Draws until `need` distinct members without the file have come up; also returns the draws
      that are left.  None: the draws were not enough. */
  function Sample(members: seq<nat>, holders: set<nat>, need: nat, draws: seq<nat>,
      targets: set<nat>): Option<(set<nat>, seq<nat>)>
    requires members != []
    decreases |draws|
  {
    if |targets| >= need then Some((targets, draws))
    else if draws == [] then None
    else
      var m := Draw(members, draws[0]);
      Sample(members, holders, need, draws[1..], if m in holders then targets else targets + {m})
  }

  /** The first member drawn that has the file. */
  function Source(members: seq<nat>, holders: set<nat>, draws: seq<nat>): Option<nat>
    requires members != []
    decreases |draws|
  {
    if draws == [] then None
    else if Draw(members, draws[0]) in holders then Some(Draw(members, draws[0]))
    else Source(members, holders, draws[1..])
  }

  function Drawn(members: seq<nat>, draws: seq<nat>): set<nat>
    requires members != []
  {
    set k | 0 <= k < |draws| :: Draw(members, draws[k])
  }

  function AsSet(members: seq<nat>): set<nat> { set m | m in members }

  lemma AsSetSnoc(members: seq<nat>, m: nat)
    ensures AsSet(members + [m]) == AsSet(members) + {m}
  {
    assert m in members + [m];
  }

  lemma DrawnSplits(members: seq<nat>, draws: seq<nat>)
    requires members != [] && draws != []
    ensures Drawn(members, draws) == {Draw(members, draws[0])} + Drawn(members, draws[1..])
    ensures Draw(members, draws[0]) in members
  {
    forall m | m in Drawn(members, draws) ensures m in {Draw(members, draws[0])} + Drawn(members, draws[1..]) {
      var k :| 0 <= k < |draws| && m == Draw(members, draws[k]);
      if k > 0 {
        assert draws[1..][k - 1] == draws[k];
      }
    }
    forall m | m in Drawn(members, draws[1..]) ensures m in Drawn(members, draws) {
      var k :| 0 <= k < |draws| - 1 && m == Draw(members, draws[1..][k]);
      assert draws[1..][k] == draws[k + 1];
    }
  }

  /** The sampling comes to an end exactly if enough different members without the file are drawn,
      and then it has picked exactly as many of them as were wanted. */
  lemma {:induction false} SampleExactly(members: seq<nat>, holders: set<nat>, need: nat, draws: seq<nat>,
      targets: set<nat>)
    requires members != [] && targets <= AsSet(members) - holders && |targets| <= need
    ensures var r := Sample(members, holders, need, draws, targets);
      && (r.Some? <==> |targets + (Drawn(members, draws) - holders)| >= need)
      && (r.Some? ==> r.value.0 <= AsSet(members) - holders && |r.value.0| == need)
    decreases |draws|
  {
    if |targets| >= need {
      SubsetSize(targets, targets + (Drawn(members, draws) - holders));
    } else if draws == [] {
      assert targets + (Drawn(members, draws) - holders) == targets;
    } else {
      var m := Draw(members, draws[0]);
      DrawnSplits(members, draws);
      var next := if m in holders then targets else targets + {m};
      assert targets + (Drawn(members, draws) - holders) == next + (Drawn(members, draws[1..]) - holders);
      SampleExactly(members, holders, need, draws[1..], next);
    }
  }

  /** A source is found exactly if a member that has the file is drawn. */
  lemma {:induction false} SourceExactly(members: seq<nat>, holders: set<nat>, draws: seq<nat>)
    requires members != []
    ensures Source(members, holders, draws).Some? <==> !(Drawn(members, draws) !! holders)
    ensures Source(members, holders, draws).Some? ==> Source(members, holders, draws).value in holders
    decreases |draws|
  {
    if draws == [] {
      assert Drawn(members, draws) == {};
    } else {
      DrawnSplits(members, draws);
      SourceExactly(members, holders, draws[1..]);
      assert Drawn(members, draws) * holders ==
             {Draw(members, draws[0])} * holders + Drawn(members, draws[1..]) * holders;
    }
  }

  /** More draws than needed are left over. */
  lemma {:induction false} SampleLeaves(members: seq<nat>, holders: set<nat>, need: nat, draws: seq<nat>,
      more: seq<nat>, targets: set<nat>)
    requires members != [] && Sample(members, holders, need, draws, targets).Some?
    ensures var r := Sample(members, holders, need, draws, targets).value;
      Sample(members, holders, need, draws + more, targets) == Some((r.0, r.1 + more))
    decreases |draws|
  {
    if |targets| < need {
      var m := Draw(members, draws[0]);
      assert (draws + more)[0] == draws[0] && (draws + more)[1..] == draws[1..] + more;
      SampleLeaves(members, holders, need, draws[1..], more, if m in holders then targets else targets + {m});
    }
  }

  lemma DrawnGrows(members: seq<nat>, draws: seq<nat>, more: seq<nat>)
    requires members != []
    ensures Drawn(members, more) <= Drawn(members, draws + more)
  {
    forall m | m in Drawn(members, more) ensures m in Drawn(members, draws + more) {
      var k :| 0 <= k < |more| && m == Draw(members, more[k]);
      assert (draws + more)[|draws| + k] == more[k];
    }
  }

  datatype Outcome =
    | Nothing                                    // no replicas are missing
    | Command(source: nat, targets: set<nat>)    // one REPLICATE command
    | Unfinished                                 // still sampling when the draws end

  /** Conversion of an int to unsigned int. */
  function AsUnsigned(n: int): int { if n < 0 then n + 0x1_0000_0000 else n }

  const INT_RANGE := 0x8000_0000

  /** replicateFile, given who holds the file. */
  function Replicate(members: seq<nat>, holders: set<nat>, draws: seq<nat>): Outcome
    requires members != [] && |members| + |holders| < INT_RANGE
  {
    var missing := Missing(members, holders);
    if missing == 0 then Nothing else
    match Sample(members, holders, AsUnsigned(missing), draws, {})
    case None => Unfinished
    case Some((targets, rest)) =>
      match Source(members, holders, rest)
      case None => Unfinished
      case Some(source) => Command(source, targets)
  }

  /** numTargets. */
  function Missing(members: seq<nat>, holders: set<nat>): int {
    (if |members| < R.MAX_REPLICATE then |members| else R.MAX_REPLICATE) - |holders|
  }

  /** Whatever is drawn: a command is a choice the store model allows, sent to a member that has
      the file.  With replicas to spare, the number of missing ones is negative, becomes a huge
      unsigned number, and the sampling never ends. */
  lemma ReplicateIsAChoice(members: seq<nat>, holders: set<nat>, draws: seq<nat>)
    requires members != [] && |members| + |holders| < INT_RANGE && |AsSet(members)| == |members|
    ensures var r := Replicate(members, holders, draws);
      && (r.Nothing? <==> |holders| == R.Wanted(AsSet(members)))
      && (r.Command? ==> R.Choice(AsSet(members), holders, r.targets) && r.source in holders)
      && (|holders| > R.Wanted(AsSet(members)) ==> r.Unfinished?)
  {
    var missing := Missing(members, holders);
    if missing != 0 {
      SampleExactly(members, holders, AsUnsigned(missing), draws, {});
      var r := Sample(members, holders, AsUnsigned(missing), draws, {});
      if r.Some? {
        SourceExactly(members, holders, r.value.1);
        SubsetSize(r.value.0, AsSet(members));
      }
    }
  }

  /** If replicas are missing, draws that bring up enough members without the file, and after that
      one with it, end in a command. */
  lemma FairDrawsSuffice(members: seq<nat>, holders: set<nat>, draws: seq<nat>, more: seq<nat>)
    requires members != [] && |members| + |holders| < INT_RANGE && |AsSet(members)| == |members|
    requires 0 < Missing(members, holders) <= |Drawn(members, draws) - holders|
    requires !(Drawn(members, more) !! holders)
    ensures Replicate(members, holders, draws + more).Command?
  {
    var need := Missing(members, holders);
    SampleExactly(members, holders, need, draws, {});
    assert {} + (Drawn(members, draws) - holders) == Drawn(members, draws) - holders;
    SampleLeaves(members, holders, need, draws, more, {});
    var rest := Sample(members, holders, need, draws, {}).value.1;
    DrawnGrows(members, rest, more);
    SourceExactly(members, holders, rest + more);
  }

  // ---- what the outcomes mean for the store ----

  /** One outcome for every file that the index lists. */
  ghost predicate OutcomesOf(files: map<string, R.FileState>, members: seq<nat>, draws: string -> seq<nat>,
      outcomes: map<string, Outcome>)
    requires members != []
  {
    && (forall f :: f in outcomes <==> f in files && files[f].index != {})
    && forall f :: f in outcomes ==>
         |members| + |files[f].index| < INT_RANGE && outcomes[f] == Replicate(members, files[f].index, draws(f))
  }

  /** No sampling loop is still running. */
  predicate AllEnded(outcomes: map<string, Outcome>) { forall f :: f in outcomes ==> !outcomes[f].Unfinished? }

  function TargetsOf(outcome: Outcome): set<nat> { if outcome.Command? then outcome.targets else {} }

  function PlanOf(outcomes: map<string, Outcome>): R.Plan { map f | f in outcomes :: TargetsOf(outcomes[f]) }

  lemma OutcomeIsChoice(members: seq<nat>, holders: set<nat>, draws: seq<nat>)
    requires members != [] && |members| + |holders| < INT_RANGE && |AsSet(members)| == |members|
    requires !Replicate(members, holders, draws).Unfinished?
    ensures R.Choice(AsSet(members), holders, TargetsOf(Replicate(members, holders, draws)))
  {
    ReplicateIsAChoice(members, holders, draws);
  }

  /** When all sampling has ended, the commands form a plan that the store model allows. */
  lemma OutcomesArePlanned(files: map<string, R.FileState>, members: seq<nat>, draws: string -> seq<nat>,
      outcomes: map<string, Outcome>)
    requires members != [] && |AsSet(members)| == |members|
    requires OutcomesOf(files, members, draws, outcomes) && AllEnded(outcomes)
    ensures R.Planned(AsSet(members), files, PlanOf(outcomes))
  {
    forall f | f in files && files[f].index != {}
      ensures f in PlanOf(outcomes) && R.Choice(AsSet(members), files[f].index, PlanOf(outcomes)[f])
    {
      assert f in outcomes;
      OutcomeIsChoice(members, files[f].index, draws(f));
    }
  }

  /** Whatever is drawn, handling the failure of m with this index ends without any command and
      without an endless loop. */
  ghost predicate CommandsNothing(index: R.Index, members: seq<nat>, m: nat, draws: string -> seq<nat>)
    requires members != [] && 2 * |members| < INT_RANGE && F.IndexWithin(index, AsSet(members) + {m})
  {
    forall f :: f in index && !(index[f] - {m} !! AsSet(members)) ==>
      |members| + |index[f] - {m}| < INT_RANGE && Replicate(members, index[f] - {m}, draws(f)).Nothing?
  }

  lemma QuietIndexExactly(index: R.Index, members: seq<nat>, m: nat, draws: string -> seq<nat>)
    requires members != [] && 2 * |members| < INT_RANGE && |AsSet(members)| == |members|
    requires F.IndexWithin(index, AsSet(members) + {m})
    ensures R.QuietIndex(index, AsSet(members), m) <==> CommandsNothing(index, members, m, draws)
  {
    forall f | f in index
      ensures !(index[f] - {m} !! AsSet(members)) <==> index[f] - {m} != {}
      ensures |members| + |index[f] - {m}| < INT_RANGE
      ensures Replicate(members, index[f] - {m}, draws(f)).Nothing? <==>
              |index[f] - {m}| == R.Wanted(AsSet(members))
    {
      SubsetSize(index[f] - {m}, AsSet(members));
      ReplicateIsAChoice(members, index[f] - {m}, draws(f));
    }
  }

  /** Every node handles a failure, master or not.  A failure makes no former master command anything,
      whatever they draw, if and only if every file that one of them still lists has as many
      listed holders left as it should have. */
  lemma FailureIsQuietExactly(s: R.Store, members: seq<nat>, m: nat, draws: nat -> string -> seq<nat>)
    requires F.FormersOk(s) && m in s.members && AsSet(members) == s.members - {m}
    requires members != [] && 2 * |members| < INT_RANGE && |AsSet(members)| == |members|
    ensures R.FormersQuiet(s, m) <==> forall b :: b in s.former && b != m ==>
              F.IndexWithin(s.former[b], AsSet(members) + {m}) && CommandsNothing(s.former[b], members, m, draws(b))
  {
    assert AsSet(members) + {m} == s.members;
    forall b | b in s.former && b != m
      ensures F.IndexWithin(s.former[b], AsSet(members) + {m})
      ensures R.QuietIndex(s.former[b], AsSet(members), m) <==> CommandsNothing(s.former[b], members, m, draws(b))
    {
      QuietIndexExactly(s.former[b], members, m, draws(b));
    }
  }

  /** The members with f in their entry. */
  ghost function HoldersOf(fileMap: map<nat, seq<string>>, f: string): set<nat> {
    set m | m in fileMap && f in fileMap[m]
  }

  /** Those of them that are not in `rest`. */
  ghost function CountedSoFar(fileMap: map<nat, seq<string>>, rest: set<nat>, f: string): set<nat> {
    set m | m in fileMap && m !in rest && f in fileMap[m]
  }

  lemma OneMoreCounted(fileMap: map<nat, seq<string>>, rest: set<nat>, id: nat, f: string)
    requires id in rest && id in fileMap
    ensures id !in CountedSoFar(fileMap, rest, f)
    ensures CountedSoFar(fileMap, rest - {id}, f)
         == CountedSoFar(fileMap, rest, f) + if f in fileMap[id] then {id} else {}
  {
  }

  /** The entries of these members. */
  function Entries(members: set<nat>, local: map<nat, seq<string>>): map<nat, seq<string>> {
    map m | m in members && m in local :: local[m]
  }

  /** Nobody else is listed with any file. */
  ghost predicate OnlyOf(fileMap: map<nat, seq<string>>, members: seq<nat>) {
    forall f :: HoldersOf(fileMap, f) <= AsSet(members)
  }

  lemma OneMoreEntry(fileMap: map<nat, seq<string>>, members: set<nat>, m: nat, local: map<nat, seq<string>>)
    requires m in local
    ensures fileMap + Entries(members + {m}, local) == (fileMap + Entries(members, local))[m := local[m]]
  {
  }

  lemma OneMoreKey(fileMap: map<nat, seq<string>>, m: nat, names: seq<string>)
    ensures |fileMap[m := names]| <= |fileMap| + 1
  {
    assert fileMap[m := names].Keys == fileMap.Keys + {m};
  }

  lemma OneMoreListed(before: map<nat, seq<string>>, fileMap: map<nat, seq<string>>, members: seq<nat>, i: nat,
      local: map<nat, seq<string>>)
    requires i < |members| && AsSet(members) <= local.Keys
    requires fileMap == before + Entries(AsSet(members[..i]), local)
    ensures members[i] in local
    ensures fileMap[members[i] := local[members[i]]] == before + Entries(AsSet(members[..i + 1]), local)
    ensures |fileMap[members[i] := local[members[i]]]| <= |fileMap| + 1
  {
    assert members[i] in AsSet(members);
    assert members[..i + 1] == members[..i] + [members[i]];
    AsSetSnoc(members[..i], members[i]);
    OneMoreEntry(before, AsSet(members[..i]), members[i], local);
    OneMoreKey(fileMap, members[i], local[members[i]]);
  }

  /** Replacing the entries of all members leaves those of others. */
  lemma EntriesReplaced(fileMap: map<nat, seq<string>>, members: set<nat>, local: map<nat, seq<string>>, f: string)
    requires members <= local.Keys
    ensures HoldersOf(fileMap + Entries(members, local), f)
         == HoldersOf(fileMap, f) - members + HoldersOf(Entries(members, local), f)
  {
  }

  // ---- how the code and the store model correspond ----

  /** `members` is the membership list of the store, and its index lists members only. */
  ghost predicate GroupOf(t: R.Store, members: seq<nat>) {
    && t.members == AsSet(members) && |AsSet(members)| == |members|
    && forall f :: f in t.files ==> t.files[f].index <= t.members
  }

  /** The index of the store says what the members say. */
  ghost predicate IsListing(listed: R.Store, members: seq<nat>, local: map<nat, seq<string>>) {
    && listed.members == AsSet(members) && |AsSet(members)| == |members|
    && (forall f :: f in listed.files ==> listed.files[f].index == HoldersOf(Entries(AsSet(members), local), f))
    && forall f :: f !in listed.files ==> HoldersOf(Entries(AsSet(members), local), f) == {}
  }

  /** A member that is not the master has failed, and has left the membership list. */
  ghost predicate Fails(s: R.Store, m: nat, members: seq<nat>) {
    && m in s.members && !R.IsMaster(s.members, m)
    && AsSet(members) == s.members - {m} && |AsSet(members)| == |members|
    && forall f :: f in s.files ==> s.files[f].index <= s.members
  }

  /** A number that draws this member. */
  lemma DrawOf(members: seq<nat>, x: nat) returns (i: nat)
    requires x in members
    ensures members != [] && Draw(members, i) == x
  {
    i :| 0 <= i < |members| && members[i] == x;
    assert i % |members| == i;
  }

  lemma OneTargetDrawn(members: seq<nat>, holders: set<nat>, need: nat, i: nat, rest: seq<nat>, targets: set<nat>)
    requires members != [] && |targets| < need && Draw(members, i) !in holders
    ensures Sample(members, holders, need, [i] + rest, targets)
         == Sample(members, holders, need, rest, targets + {Draw(members, i)})
  {
    assert ([i] + rest)[0] == i && ([i] + rest)[1..] == rest;
  }

  /** Draws that bring up exactly these members, one after the other. */
  lemma {:induction false} TargetsCanBeDrawn(members: seq<nat>, holders: set<nat>, need: nat, more: set<nat>,
      targets: set<nat>, rest: seq<nat>)
    returns (draws: seq<nat>)
    requires members != [] && more <= AsSet(members) - holders && more !! targets && need == |targets| + |more|
    ensures Sample(members, holders, need, draws, targets) == Some((targets + more, rest))
    decreases |more|
  {
    if more == {} {
      draws := rest;
      assert targets + more == targets;
    } else {
      var x :| x in more;
      var i := DrawOf(members, x);
      OneMoreTarget(more, targets, x);
      draws := TargetsCanBeDrawn(members, holders, need, more - {x}, targets + {x}, rest);
      OneTargetDrawn(members, holders, need, i, draws, targets);
      draws := [i] + draws;
    }
  }

  lemma OneMoreTarget(more: set<nat>, targets: set<nat>, x: nat)
    requires x in more && more !! targets
    ensures |targets + {x}| == |targets| + 1 && |more - {x}| == |more| - 1
    ensures targets + {x} + (more - {x}) == targets + more
  {
  }

  /** Every choice of the store model, with every source, can be drawn. */
  lemma ChoiceCanBeDrawn(members: seq<nat>, holders: set<nat>, targets: set<nat>, source: nat) returns (draws: seq<nat>)
    requires members != [] && |members| + |holders| < INT_RANGE && |AsSet(members)| == |members|
    requires R.Choice(AsSet(members), holders, targets) && targets != {} && source in holders && source in members
    ensures Replicate(members, holders, draws) == Command(source, targets)
  {
    var j := DrawOf(members, source);
    SourceDrawn(members, holders, j);
    draws := TargetsCanBeDrawn(members, holders, |targets|, targets, {}, [j]);
    assert {} + targets == targets;
    assert Missing(members, holders) == |targets|;
  }

  lemma SourceDrawn(members: seq<nat>, holders: set<nat>, j: nat)
    requires members != [] && Draw(members, j) in holders
    ensures Source(members, holders, [j]) == Some(Draw(members, j))
  {
  }

  class DFileMaster {
    var fileMap: map<nat, seq<string>>

    /** The members that hold f according to the index. */
    ghost function Holders(f: string): set<nat>
      reads this
    {
      HoldersOf(fileMap, f)
    }

    /** This master's index is that of the store. */
    ghost predicate Indexes(files: map<string, R.FileState>)
      reads this
    {
      && (forall f :: f in files ==> Holders(f) == files[f].index)
      && forall f :: f !in files ==> Holders(f) == {}
    }

    /** The step applies, and leads to a store with this index. */
    ghost predicate Reflects(step: Option<R.Store>)
      reads this
    {
      step.Some? && Indexes(step.value.files)
    }

    function Entry(id: nat): (names: seq<string>)
      reads this
      ensures forall f :: f in names <==> id in Holders(f)
    {
      if id in fileMap then fileMap[id] else []
    }

    constructor ()
      ensures forall f :: Holders(f) == {}
    {
      fileMap := map[];
    }

    method CountReplicates(filename: string) returns (count: nat)
      ensures count == |Holders(filename)| <= |fileMap|
    {
      count := 0;
      var rest := fileMap.Keys;
      ghost var counted := {};
      while rest != {}
        invariant rest <= fileMap.Keys
        invariant counted == CountedSoFar(fileMap, rest, filename)
        invariant count == |counted|
      {
        var id :| id in rest;
        OneMoreCounted(fileMap, rest, id, filename);
        rest := rest - {id};
        var names := fileMap[id];
        var i := 0;
        while i < |names| && names[i] != filename
          invariant i <= |names| && filename !in names[..i]
        {
          i := i + 1;
        }
        if i < |names| {
          count := count + 1;
          counted := counted + {id};
        }
      }
      assert counted == Holders(filename);
      SubsetSize(counted, fileMap.Keys);
    }

    method HasFile(id: nat, filename: string) returns (b: bool)
      ensures b <==> id in Holders(filename)
    {
      var names := Entry(id);
      var i := 0;
      while i < |names|
        invariant i <= |names| && filename !in names[..i]
      {
        if names[i] == filename {
          return true;
        }
        i := i + 1;
      }
      b := false;
    }

    method UpdateFileMap(id: nat, names: seq<string>)
      modifies this
      ensures fileMap == old(fileMap)[id := names]
      ensures forall f :: Holders(f) == old(Holders(f)) - {id} + if f in names then {id} else {}
    {
      fileMap := fileMap[id := names];
    }

    method AddToFileMap(id: nat, name: string)
      modifies this
      ensures Holders(name) == old(Holders(name)) + {id}
      ensures forall f :: f != name ==> Holders(f) == old(Holders(f))
      ensures Entry(id) == if id in old(Holders(name)) then old(Entry(id)) else old(Entry(id)) + [name]
    {
      var has := HasFile(id, name);
      if has {
        return;
      }
      fileMap := fileMap[id := Entry(id) + [name]];
    }

    method DeleteFromFileMap(id: nat, name: string)
      modifies this
      ensures Holders(name) == old(Holders(name)) - {id}
      ensures forall f :: f != name ==> Holders(f) == old(Holders(f))
    {
      var names := Entry(id);
      var newVector := [];
      for i := 0 to |names|
        invariant forall f :: f in newVector <==> f in names[..i] && f != name
        invariant fileMap == old(fileMap)
      {
        assert names[..i + 1] == names[..i] + [names[i]];
        if names[i] != name {
          newVector := newVector + [names[i]];
        }
      }
      assert names[..|names|] == names;
      fileMap := fileMap[id := newVector];
    }

    /** Deletes f wherever a member holds it; the result lists who gets a DELETE command. */
    method DeleteFile(members: seq<nat>, filename: string) returns (targets: seq<nat>)
      modifies this
      ensures AsSet(targets) == AsSet(members) * old(Holders(filename))
      ensures Holders(filename) == old(Holders(filename)) - AsSet(members)
      ensures forall f :: f != filename ==> Holders(f) == old(Holders(f))
    {
      targets := [];
      for i := 0 to |members|
        invariant fileMap == old(fileMap)
        invariant AsSet(targets) == AsSet(members[..i]) * Holders(filename)
      {
        assert members[..i + 1] == members[..i] + [members[i]];
        AsSetSnoc(members[..i], members[i]);
        var has := HasFile(members[i], filename);
        if has {
          AsSetSnoc(targets, members[i]);
          targets := targets + [members[i]];
        }
      }
      assert members[..|members|] == members;
      for i := 0 to |targets|
        invariant Holders(filename) == old(Holders(filename)) - AsSet(targets[..i])
        invariant forall f :: f != filename ==> Holders(f) == old(Holders(f))
      {
        assert targets[..i + 1] == targets[..i] + [targets[i]];
        AsSetSnoc(targets[..i], targets[i]);
        DeleteFromFileMap(targets[i], filename);
      }
      assert targets[..|targets|] == targets;
    }

    /** The loop that draws targets. */
    method PickTargets(members: seq<nat>, filename: string, limit: nat, draws: seq<nat>)
      returns (r: Option<(set<nat>, seq<nat>)>)
      requires members != []
      ensures r == Sample(members, Holders(filename), limit, draws, {})
    {
      var targets: set<nat>, p := {}, 0;
      while limit > |targets|
        invariant p <= |draws|
        invariant Sample(members, Holders(filename), limit, draws, {})
            == Sample(members, Holders(filename), limit, draws[p..], targets)
        decreases |draws| - p
      {
        if p == |draws| {
          return None;
        }
        var target := members[draws[p] % |members|];
        var has := HasFile(target, filename);
        while has
          invariant p < |draws| && target == Draw(members, draws[p]) && has == (target in Holders(filename))
          invariant Sample(members, Holders(filename), limit, draws, {})
              == Sample(members, Holders(filename), limit, draws[p..], targets)
          decreases |draws| - p
        {
          assert draws[p..][1..] == draws[p + 1..];
          p := p + 1;
          if p == |draws| {
            return None;
          }
          target := members[draws[p] % |members|];
          has := HasFile(target, filename);
        }
        assert draws[p..][1..] == draws[p + 1..];
        targets, p := targets + {target}, p + 1;
      }
      r := Some((targets, draws[p..]));
    }

    /** The loop that draws a source. */
    method PickSource(members: seq<nat>, filename: string, draws: seq<nat>) returns (r: Option<nat>)
      requires members != []
      ensures r == Source(members, Holders(filename), draws)
    {
      if draws == [] {
        return None;
      }
      var p := 0;
      var source := members[draws[p] % |members|];
      var has := HasFile(source, filename);
      while !has
        invariant p < |draws| && source == Draw(members, draws[p]) && has == (source in Holders(filename))
        invariant Source(members, Holders(filename), draws) == Source(members, Holders(filename), draws[p..])
        decreases |draws| - p
      {
        assert draws[p..][1..] == draws[p + 1..];
        p := p + 1;
        if p == |draws| {
          return None;
        }
        source := members[draws[p] % |members|];
        has := HasFile(source, filename);
      }
      r := Some(source);
    }

    /** One REPLICATE command for a file, its targets and its source drawn at random. */
    method ReplicateFile(members: seq<nat>, filename: string, draws: seq<nat>) returns (outcome: Outcome)
      requires members != [] && |members| + |Holders(filename)| < INT_RANGE
      ensures outcome == Replicate(members, Holders(filename), draws)
    {
      var numMembers := |members|;
      var count := CountReplicates(filename);
      var numTargets := (if numMembers < R.MAX_REPLICATE then numMembers else R.MAX_REPLICATE) - count;
      if numTargets == 0 {
        return Nothing;
      }
      var targets := PickTargets(members, filename, AsUnsigned(numTargets), draws);
      if targets.None? {
        return Unfinished;
      }
      var source := PickSource(members, filename, targets.value.1);
      if source.None? {
        return Unfinished;
      }
      outcome := Command(source.value, targets.value.0);
    }

    /** What replicating again means for the store. */
    lemma RefilledAs(t: R.Store, members: seq<nat>, draws: string -> seq<nat>, outcomes: map<string, Outcome>)
      requires members != [] && Indexes(t.files) && GroupOf(t, members)
      requires forall f :: f in outcomes <==> !(Holders(f) !! AsSet(members))
      requires forall f :: f in outcomes ==>
        (|members| + |Holders(f)| < INT_RANGE && outcomes[f] == Replicate(members, Holders(f), draws(f)))
      requires AllEnded(outcomes)
      ensures Reflects(R.Refilled(t, PlanOf(outcomes)))
    {
      forall f ensures f in outcomes <==> f in t.files && t.files[f].index != {} {
        if f in t.files {
          assert Holders(f) * AsSet(members) == t.files[f].index;
        }
      }
      OutcomesArePlanned(t.files, members, draws, outcomes);
    }

    /** Every file that a member holds is replicated once more.  If t is the store at that moment, this is
        what the store model does, with the commands as its plan. */
    method ReReplicate(members: seq<nat>, draws: string -> seq<nat>, ghost t: R.Store)
      returns (outcomes: map<string, Outcome>)
      requires members != [] && |members| + |fileMap| < INT_RANGE
      ensures forall f :: f in outcomes <==> !(Holders(f) !! AsSet(members))
      ensures forall f :: f in outcomes ==>
        (|members| + |Holders(f)| < INT_RANGE && outcomes[f] == Replicate(members, Holders(f), draws(f)))
      ensures Indexes(t.files) && GroupOf(t, members) && AllEnded(outcomes) ==>
        Reflects(R.Refilled(t, PlanOf(outcomes)))
    {
      var files: set<string> := {};
      for i := 0 to |members|
        invariant forall f :: f in files <==> exists k :: 0 <= k < i && members[k] in Holders(f)
      {
        var names := Entry(members[i]);
        files := files + set f | f in names;
      }
      outcomes := map[];
      var rest := files;
      while rest != {}
        invariant rest <= files && outcomes.Keys == files - rest
        invariant forall f :: f in outcomes ==>
        (|members| + |Holders(f)| < INT_RANGE && outcomes[f] == Replicate(members, Holders(f), draws(f)))
      {
        var f :| f in rest;
        SubsetSize(Holders(f), fileMap.Keys);
        var outcome := ReplicateFile(members, f, draws(f));
        outcomes, rest := outcomes[f := outcome], rest - {f};
      }
      if Indexes(t.files) && GroupOf(t, members) && AllEnded(outcomes) {
        RefilledAs(t, members, draws, outcomes);
      }
    }

    /** Every member is asked for its files. */
    method ListAll(members: seq<nat>, local: map<nat, seq<string>>)
      requires AsSet(members) <= local.Keys
      modifies this
      ensures fileMap == old(fileMap) + Entries(AsSet(members), local)
      ensures |fileMap| <= |old(fileMap)| + |members|
    {
      for i := 0 to |members|
        invariant fileMap == old(fileMap) + Entries(AsSet(members[..i]), local)
        invariant |fileMap| <= |old(fileMap)| + i
      {
        OneMoreListed(old(fileMap), fileMap, members, i, local);
        UpdateFileMap(members[i], local[members[i]]);
      }
      assert members[..|members|] == members;
    }

    lemma ListingIsIndexed(before: map<nat, seq<string>>, listed: R.Store, members: seq<nat>,
        local: map<nat, seq<string>>)
      requires AsSet(members) <= local.Keys && fileMap == before + Entries(AsSet(members), local)
      requires OnlyOf(before, members) && IsListing(listed, members, local)
      ensures Indexes(listed.files) && GroupOf(listed, members)
    {
      forall f ensures Holders(f) == HoldersOf(Entries(AsSet(members), local), f) {
        EntriesReplaced(before, AsSet(members), local, f);
      }
    }

    /** This node has become master: it asks every member for its files, and replicates them.  If no
        entry of a former member is left, it does what the store model does with `listed`, the store
        after the listing of a takeover or of a join. */
    method Start(members: seq<nat>, local: map<nat, seq<string>>, draws: string -> seq<nat>, ghost listed: R.Store)
      returns (outcomes: map<string, Outcome>)
      requires members != [] && AsSet(members) <= local.Keys
      requires |members| + |fileMap| + |members| < INT_RANGE
      modifies this
      ensures forall f :: Holders(f) == old(Holders(f)) - AsSet(members) + HoldersOf(Entries(AsSet(members), local), f)
      ensures forall f :: f in outcomes <==> !(Holders(f) !! AsSet(members))
      ensures forall f :: f in outcomes ==>
        (|members| + |Holders(f)| < INT_RANGE && outcomes[f] == Replicate(members, Holders(f), draws(f)))
      ensures OnlyOf(old(fileMap), members) && IsListing(listed, members, local) && AllEnded(outcomes) ==>
        Reflects(R.Refilled(listed, PlanOf(outcomes)))
    {
      ListAll(members, local);
      if OnlyOf(old(fileMap), members) && IsListing(listed, members, local) {
        ListingIsIndexed(old(fileMap), listed, members, local);
      }
      forall f ensures Holders(f) ==
          old(Holders(f)) - AsSet(members) + HoldersOf(Entries(AsSet(members), local), f) {
        EntriesReplaced(old(fileMap), AsSet(members), local, f);
      }
      outcomes := ReReplicate(members, draws, listed);
    }

    /** A member has failed: it is cleared from the index and the rest is replicated again.  This is
        the failure step of the store model, with the commands as its plan. */
    method HandleFail(id: nat, members: seq<nat>, draws: string -> seq<nat>, ghost s: R.Store)
      returns (outcomes: map<string, Outcome>)
      requires members != [] && |members| + |fileMap| + 1 < INT_RANGE
      modifies this
      ensures forall f :: Holders(f) == old(Holders(f)) - {id}
      ensures forall f :: f in outcomes <==> !(Holders(f) !! AsSet(members))
      ensures forall f :: f in outcomes ==>
        (|members| + |Holders(f)| < INT_RANGE && outcomes[f] == Replicate(members, Holders(f), draws(f)))
      ensures old(Indexes(s.files)) && Fails(s, id, members) && AllEnded(outcomes) ==>
        Reflects(R.Apply(s, R.Fail(id, PlanOf(outcomes))))
    {
      UpdateFileMap(id, []);
      outcomes := ReReplicate(members, draws, R.Without(s, id));
    }

    /** A PUT request: refused if anybody holds the file, otherwise entered and replicated.  This is
        the PUT step of the store model, with the targets of the command. */
    method HandlePut(id: nat, filename: string, members: seq<nat>, draws: seq<nat>, ghost s: R.Store)
      returns (approve: bool, outcome: Outcome)
      requires members != [] && |members| + 1 < INT_RANGE
      modifies this
      ensures approve <==> old(Holders(filename)) == {}
      ensures forall f :: Holders(f) == if approve && f == filename then {id} else old(Holders(f))
      ensures outcome == if approve then Replicate(members, {id}, draws) else Nothing
      ensures old(Indexes(s.files)) && id in s.members && GroupOf(s, members) && !outcome.Unfinished? ==>
        var t := R.Apply(s, R.Put(id, filename, TargetsOf(outcome)));
        Reflects(t) && (!approve ==> t.value == s)
    {
      var count := CountReplicates(filename);
      approve, outcome := count == 0, Nothing;
      if count == 0 {
        AddToFileMap(id, filename);
        assert Holders(filename) == {id};
        outcome := ReplicateFile(members, filename, draws);
        if id in s.members && GroupOf(s, members) && !outcome.Unfinished? {
          OutcomeIsChoice(members, {id}, draws);
        }
      }
    }

    /** A DEL request. */
    method HandleDelete(filename: string, members: seq<nat>) returns (available: nat, targets: seq<nat>)
      modifies this
      ensures available == |old(Holders(filename))|
      ensures AsSet(targets) == AsSet(members) * old(Holders(filename))
      ensures Holders(filename) == old(Holders(filename)) - AsSet(members)
      ensures forall f :: f != filename ==> Holders(f) == old(Holders(f))
    {
      available := CountReplicates(filename);
      targets := [];
      if available != 0 {
        targets := DeleteFile(members, filename);
      }
    }
  }

  /** The files a member has. */
  class DFile {
    var localFiles: seq<string>

    ghost predicate Valid()
      reads this
    {
      forall i, j :: 0 <= i < j < |localFiles| ==> localFiles[i] != localFiles[j]
    }

    constructor ()
      ensures Valid() && localFiles == []
    {
      localFiles := [];
    }

    method CheckFileAvailable(filename: string) returns (b: bool)
      ensures b <==> filename !in localFiles
    {
      var i := 0;
      while i < |localFiles|
        invariant i <= |localFiles| && filename !in localFiles[..i]
      {
        if localFiles[i] == filename {
          return false;
        }
        i := i + 1;
      }
      b := true;
    }

    method AddToLocalFileMap(filename: string) returns (ok: bool)
      requires Valid()
      modifies this
      ensures Valid() && ok == (filename !in old(localFiles))
      ensures localFiles == if ok then old(localFiles) + [filename] else old(localFiles)
    {
      ok := CheckFileAvailable(filename);
      if ok {
        localFiles := localFiles + [filename];
      }
    }

    /** Erases the first entry of that name, which is the only one. */
    method DeleteLocalFile(filename: string)
      requires Valid()
      modifies this
      ensures Valid() && forall f :: f in localFiles <==> f in old(localFiles) && f != filename
    {
      var i := 0;
      while i < |localFiles| && localFiles[i] != filename
        invariant i <= |localFiles| && filename !in localFiles[..i]
      {
        i := i + 1;
      }
      if i < |localFiles| {
        localFiles := localFiles[..i] + localFiles[i + 1..];
      }
    }
  }
}
