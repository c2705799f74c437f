/** Members that were master until somebody with a smaller id joined.  They keep their index, handle
    failures with it, and have their commands refused. */
module FormerMasters {
  import opened Collections
  import opened Options
  import opened Replication
  import opened ReplicationTheorems

  // ---- what the indexes of former masters can list ----

  predicate IndexWithin(index: Index, members: Members) { forall f :: f in index ==> index[f] <= members }

  /** A former master is a member but not the master, and its index lists members only. */
  predicate FormersOk(s: Store) {
    forall b :: b in s.former ==>
      b in s.members && !IsMaster(s.members, b) && IndexWithin(s.former[b], s.members)
  }

  /** Nobody but members has anything to do with a file. */
  predicate Within(s: Store) { forall f :: f in s.files ==> Trace(s.files[f]) <= s.members }

  lemma DroppedWithin(members: Members, v: FileState, m: nat)
    requires Trace(v) <= members
    ensures Trace(Dropped(v, m)) <= members - {m}
  {
    assert Trace(Dropped(v, m)) == Trace(v) - {m};
  }

  lemma HitWithin(members: Members, v: FileState, a: Action, f: string)
    requires Trace(v) <= members && Refills(a)
    ensures Trace(Hit(v, a, f)) <= MembersAfter(members, a)
  {
    match a {
      case Fail(m, _) => DroppedWithin(members, v, m);
      case Takeover(m, lost, _) =>
        DroppedWithin(members, v, m);
        assert Trace(Hit(v, a, f)) <= Trace(Dropped(v, m));
      case Lead(_, _, _) => assert Trace(Hit(v, a, f)) <= Trace(v);
    }
  }

  lemma CommandedWithin(members: Members, v: FileState, targets: Members)
    requires Trace(v) <= members && targets <= members
    ensures Trace(v.(copies := v.copies + targets)) <= members
  {
  }

  lemma FileStaysWithin(s: Store, a: Action, f: string)
    requires Trace(At(s, f)) <= s.members && Apply(s, a).Some?
    ensures Trace(At(Apply(s, a).value, f)) <= Apply(s, a).value.members
  {
    if Refills(a) {
      if f in s.files {
        StepOnFile(s, a, f);
        HitWithin(s.members, s.files[f], a, f);
        CommandedWithin(MembersAfter(s.members, a), Hit(s.files[f], a, f), Chosen(a.plan, f));
      }
    } else if !a.Join? {
      var v, w := At(s, f), At(Apply(s, a).value, f);
      QuietStepOnFile(s, a, f);
      if w != v {
        QuietWithin(s.members, v, a);
      }
    }
  }

  lemma QuietWithin(members: Members, v: FileState, a: Action)
    requires Trace(v) <= members
    ensures a.Put? && a.r in members && Choice(members, {a.r}, a.targets) ==>
              Trace(Stored(v, a.r, a.targets)) <= members
    ensures a.Finish? && a.m in v.copies ==> Trace(Finished(v, a.m)) <= members
    ensures a.Report? && a.m in v.updates ==> Trace(Reported(v, a.m)) <= members
    ensures Trace(Deleted(v, members)) <= members
  {
    assert Trace(Deleted(v, members)) <= Trace(v);
  }

  lemma StaysWithin(s: Store, a: Action)
    requires Within(s) && Apply(s, a).Some?
    ensures Within(Apply(s, a).value)
  {
    var t := Apply(s, a).value;
    forall f | f in t.files ensures Trace(t.files[f]) <= t.members {
      FileStaysWithin(s, a, f);
      assert At(t, f) == t.files[f];
    }
  }

  lemma RemainingOk(s: Store, m: nat)
    requires FormersOk(s)
    ensures FormersOk(Without(s, m))
  {
    var t := Without(s, m);
    forall b | b in t.former
      ensures b in t.members && !IsMaster(t.members, b) && IndexWithin(t.former[b], t.members)
    {
      assert IndexWithin(s.former[b], s.members);
    }
  }

  lemma DisplacedOk(s: Store, m: nat)
    requires FormersOk(s) && Within(s) && m !in s.members && IsMaster(s.members + {m}, m)
    ensures FormersOk(Led(s, m))
  {
    var t := Led(s, m);
    forall b | b in t.former
      ensures b in t.members && !IsMaster(t.members, b) && IndexWithin(t.former[b], t.members)
    {
      assert m in t.members && m < b;
      if IsMaster(s.members, b) {
        forall f | f in t.former[b] ensures t.former[b][f] <= t.members {
          assert s.files[f].index <= Trace(s.files[f]);
        }
      } else {
        assert IndexWithin(s.former[b], s.members);
      }
    }
  }

  lemma JoinOk(s: Store, m: nat)
    requires FormersOk(s)
    ensures FormersOk(s.(members := s.members + {m}))
  {
    forall b | b in s.former ensures !IsMaster(s.members + {m}, b) && IndexWithin(s.former[b], s.members + {m}) {
      assert IndexWithin(s.former[b], s.members);
      var k :| k in s.members && k < b;
      assert k in s.members + {m};
    }
  }

  lemma StepKeepsFormersOk(s: Store, a: Action)
    requires FormersOk(s) && Within(s) && Apply(s, a).Some?
    ensures FormersOk(Apply(s, a).value)
  {
    match a {
      case Fail(m, _) => RemainingOk(s, m);
      case Takeover(m, _, _) => RemainingOk(s, m);
      case Lead(m, _, _) => DisplacedOk(s, m);
      case Join(m) => JoinOk(s, m);
      case _ => assert Apply(s, a).value.members == s.members && Apply(s, a).value.former == s.former;
    }
  }

  /** Over all runs, orderly or not: former masters are members, none of them is the master, and what
      their indexes list are members. */
  lemma {:induction false} FormersAreMembers(members: Members, actions: seq<Action>)
    requires Run(Start(members), actions).Some?
    ensures FormersOk(Run(Start(members), actions).value) && Within(Run(Start(members), actions).value)
    decreases |actions|
  {
    if actions != [] {
      var before := actions[..|actions| - 1];
      FormersAreMembers(members, before);
      StepKeepsFormersOk(Run(Start(members), before).value, actions[|actions| - 1]);
      StaysWithin(Run(Start(members), before).value, actions[|actions| - 1]);
    }
  }

  /** A join that moves the leadership leaves the displaced master with the index it has, and earlier
      ones with theirs... */
  lemma LeadKeepsIndexes(s: Store, a: Action, b: nat)
    requires a.Lead? && Apply(s, a).Some? && b in s.members
    ensures var t := Apply(s, a).value;
      && (IsMaster(s.members, b) ==> b in t.former && t.former[b] == IndexOf(s.files))
      && (!IsMaster(s.members, b) ==>
            (b in t.former <==> b in s.former) && (b in s.former ==> t.former[b] == s.former[b]))
  {
  }

  /** ... a failure only clears the failed member from them; and no other step changes them. */
  lemma FailureClearsIndexes(s: Store, a: Action, b: nat, f: string)
    requires !a.Lead? && Apply(s, a).Some?
    ensures var t := Apply(s, a).value;
      && (!a.Fail? && !a.Takeover? ==> t.former == s.former)
      && (a.Fail? || a.Takeover? ==>
            && (b in t.former <==> b in s.former && b != a.m && !IsMaster(t.members, b))
            && (b in t.former ==> (f in t.former[b] <==> f in s.former[b]))
            && (b in t.former && f in t.former[b] ==> t.former[b][f] == s.former[b][f] - {a.m}))
  {
  }

  // ---- when a failure is quiet ----

  /** As long as nobody joins to become master there are no former masters, and every failure is
      quiet. */
  lemma {:induction false} WithoutLeadAllIsQuiet(members: Members, actions: seq<Action>, m: nat)
    requires Run(Start(members), actions).Some? && forall a :: a in actions ==> !a.Lead?
    ensures Run(Start(members), actions).value.former == map[]
    ensures FormersQuiet(Run(Start(members), actions).value, m)
    decreases |actions|
  {
    if actions != [] {
      var before := actions[..|actions| - 1];
      WithoutLeadAllIsQuiet(members, before, m);
      NobodyIsDisplaced(Run(Start(members), before).value, actions[|actions| - 1]);
    }
  }

  lemma NobodyIsDisplaced(s: Store, a: Action)
    requires s.former == map[] && Apply(s, a).Some? && !a.Lead?
    ensures Apply(s, a).value.former == map[]
  {
    match a {
      case Fail(m, _) => assert Without(s, m).former == map[];
      case Takeover(m, _, _) => assert Without(s, m).former == map[];
      case _ =>
    }
  }

  lemma FullIndex(s: Store, f: string)
    requires Inv(s) && Full(s) && Settled(s) && f in s.files
    ensures s.files[f].index <= s.members
    ensures s.files[f].index != {} ==> |s.files[f].index| == Wanted(s.members)
  {
    var v := At(s, f);
    assert FileInv(s.members, v) && FileFull(s.members, v) && SettledFile(v);
    assert Committed(v) == v.index;
  }

  lemma QuietAfter(index: Members, left: Members, m: nat)
    requires index != {} ==> |index| == MAX_REPLICATE
    requires |left| >= MAX_REPLICATE
    ensures (index - {m} != {} ==> |index - {m}| == Wanted(left)) <==> m !in index
  {
    if m in index {
      assert |index - {m}| == |index| - 1;
    } else {
      assert index - {m} == index;
    }
  }

  /** After a join that moves the leadership, in a settled group of at least three, the first failure
      is quiet if and only if it is that of the displaced master or of a member that holds no file. */
  lemma FirstFailureExactly(s: Store, a: Action, m: nat)
    requires Inv(s) && Full(s) && Settled(s) && s.former == map[] && |s.members| >= MAX_REPLICATE
    requires a.Lead? && Apply(s, a).Some? && m in Apply(s, a).value.members
    ensures FormersQuiet(Apply(s, a).value, m) <==>
            IsMaster(s.members, m) || Unlisted(s.files, m)
  {
    var t := Apply(s, a).value;
    var left := t.members - {m};
    assert |t.members| == |s.members| + 1 && |left| == |s.members|;
    var b := OneIsDisplaced(s, a);
    OneFormer(t, b, m);
    FullIndexQuietExactly(s, left, m);
  }

  /** The index lists m nowhere. */
  predicate Unlisted(files: map<string, FileState>, m: nat) { forall f :: f in files ==> m !in files[f].index }

  lemma OneIsDisplaced(s: Store, a: Action) returns (b: nat)
    requires s.former == map[] && s.members != {} && a.Lead? && Apply(s, a).Some?
    ensures IsMaster(s.members, b) && Apply(s, a).value.former == map[b := IndexOf(s.files)]
    ensures forall m :: IsMaster(s.members, m) <==> m == b
  {
    b := Smallest(s.members);
    forall m | IsMaster(s.members, m) ensures m == b {
      assert m in s.members && b in s.members;
    }
    assert Displaced(s) == map[b := IndexOf(s.files)];
  }

  lemma OneFormer(t: Store, b: nat, m: nat)
    requires t.former.Keys == {b}
    ensures FormersQuiet(t, m) <==> b == m || QuietIndex(t.former[b], t.members - {m}, m)
  {
    assert b in t.former;
    forall c | c in t.former ensures c == b {
      assert c in t.former.Keys;
    }
  }

  lemma FullIndexQuietExactly(s: Store, left: Members, m: nat)
    requires Inv(s) && Full(s) && Settled(s) && |s.members| >= MAX_REPLICATE && |left| >= MAX_REPLICATE
    ensures QuietIndex(IndexOf(s.files), left, m) <==> Unlisted(s.files, m)
  {
    var index := IndexOf(s.files);
    forall f | f in s.files
      ensures (index[f] - {m} != {} ==> |index[f] - {m}| == Wanted(left)) <==> m !in s.files[f].index
    {
      FullIndex(s, f);
      QuietAfter(index[f], left, m);
    }
    if QuietIndex(index, left, m) {
      forall f | f in s.files ensures m !in s.files[f].index {
        assert f in index;
      }
    }
  }

  lemma {:induction false} Smallest(members: Members) returns (b: nat)
    requires members != {}
    ensures IsMaster(members, b)
    decreases |members|
  {
    var x :| x in members;
    b := x;
    if members - {x} != {} {
      var y := Smallest(members - {x});
      b := if x <= y then x else y;
    }
    forall k | k in members ensures b <= k {
      assert k == x || k in members - {x};
    }
  }
}
