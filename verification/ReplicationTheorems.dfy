/** What the store guarantees over whole runs, and which disorder breaks it. */
module ReplicationTheorems {
  import opened Collections
  import opened Options
  import opened Replication

  // ---- one step ----

  /** What a step that leaves the group and the leadership alone does to one file. */
  lemma QuietStepOnFile(s: Store, a: Action, f: string)
    requires Apply(s, a).Some? && !Refills(a) && !a.Join?
    ensures Apply(s, a).value.members == s.members
    ensures var v, w := At(s, f), At(Apply(s, a).value, f);
      || w == v
      || (a.Put? && v.index == {} && a.r in s.members && Choice(s.members, {a.r}, a.targets)
          && w == Stored(v, a.r, a.targets))
      || (a.Finish? && a.m in v.copies && w == Finished(v, a.m))
      || (a.Report? && a.m in v.updates && w == Reported(v, a.m))
      || (a == Del(f) && w == Deleted(v, s.members))
  {
  }

  lemma QuietStepKeepsFile(s: Store, a: Action, f: string)
    requires FileInv(s.members, At(s, f)) && Orderly(s, a) && Apply(s, a).Some?
    requires !Refills(a) && !a.Join?
    ensures var w := At(Apply(s, a).value, f);
      FileInv(s.members, w) && (FileFull(s.members, At(s, f)) ==> FileFull(s.members, w))
  {
    var v, w := At(s, f), At(Apply(s, a).value, f);
    QuietStepOnFile(s, a, f);
    if w != v {
      match a
      case Put(r, g, targets) => StoredIsFull(s.members, v, r, targets);
      case Finish(m, g) => FinishedKeeps(s.members, v, m);
      case Report(m, g) => ReportedKeeps(s.members, v, m);
      case Del(g) => DeletedExactly(s.members, v);
    }
  }

  function Chosen(plan: Plan, f: string): Members { if f in plan then plan[f] else {} }

  /** One file after a failure or a change of the master, before it is replicated again. */
  function Hit(v: FileState, a: Action, f: string): FileState
    requires Refills(a)
  {
    match a
    case Takeover(m, lost, _) => Listed(Dropped(v, m), Chosen(lost, f))
    case Lead(_, lost, _) => Listed(v, Chosen(lost, f))
    case _ => Dropped(v, a.m)
  }

  /** The file is hit and then given the targets planned for it. */
  predicate FileHit(s: Store, a: Action, f: string)
    requires Refills(a) && Apply(s, a).Some? && f in s.files
  {
    var before, targets := Hit(s.files[f], a, f), Chosen(a.plan, f);
    var t := Apply(s, a).value;
    && t.members == MembersAfter(s.members, a)
    && (if before.index == {} then targets == {} else Choice(t.members, before.index, targets))
    && At(t, f) == before.(copies := before.copies + targets)
  }

  lemma PlannedOnFile(t: Store, plan: Plan, f: string)
    requires Refilled(t, plan).Some? && f in t.files
    ensures Refilled(t, plan).value.members == t.members
    ensures var before, targets := t.files[f], Chosen(plan, f);
      && (if before.index == {} then targets == {} else Choice(t.members, before.index, targets))
      && At(Refilled(t, plan).value, f) == before.(copies := before.copies + targets)
  {
    assert f !in plan ==> t.files[f].copies + {} == t.files[f].copies;
  }

  lemma FailOnFile(s: Store, m: nat, plan: Plan, f: string)
    requires Apply(s, Fail(m, plan)).Some? && f in s.files
    ensures FileHit(s, Fail(m, plan), f)
  {
    var t := Without(s, m);
    assert t.files[f] == Dropped(s.files[f], m);
    PlannedOnFile(t, plan, f);
  }

  lemma TakeoverOnFile(s: Store, m: nat, lost: Plan, plan: Plan, f: string)
    requires Apply(s, Takeover(m, lost, plan)).Some? && f in s.files
    ensures FileHit(s, Takeover(m, lost, plan), f)
  {
    var t := Relisted(Without(s, m), lost);
    assert t.files[f] == Listed(Dropped(s.files[f], m), Chosen(lost, f));
    PlannedOnFile(t, plan, f);
  }

  lemma LeadOnFile(s: Store, m: nat, lost: Plan, plan: Plan, f: string)
    requires Apply(s, Lead(m, lost, plan)).Some? && f in s.files
    ensures FileHit(s, Lead(m, lost, plan), f)
  {
    var t := Relisted(Led(s, m), lost);
    assert t.files[f] == Listed(s.files[f], Chosen(lost, f));
    PlannedOnFile(t, plan, f);
  }

  lemma StepOnFile(s: Store, a: Action, f: string)
    requires Refills(a) && Apply(s, a).Some? && f in s.files
    ensures FileHit(s, a, f)
  {
    match a {
      case Fail(m, plan) => FailOnFile(s, m, plan, f);
      case Takeover(m, lost, plan) => TakeoverOnFile(s, m, lost, plan, f);
      case Lead(m, lost, plan) => LeadOnFile(s, m, lost, plan, f);
    }
  }

  /** What everybody else has, fetches or has reported is not affected by a failure or a change of the
      master, but for the reports that get lost. */
  lemma OthersKeepTheirs(s: Store, a: Action, f: string, r: nat)
    requires Refills(a) && Apply(s, a).Some? && f in s.files && (a.Lead? || r != a.m)
    ensures var v, w := s.files[f], At(Apply(s, a).value, f);
      && (r in w.local <==> r in v.local) && (r in v.copies ==> r in w.copies)
      && (r in w.updates <==> r in v.updates && (a.Fail? || r !in Chosen(a.lost, f)))
  {
    StepOnFile(s, a, f);
  }

  // ---- agreement ----

  lemma DroppedAgrees(members: Members, v: FileState, m: nat)
    requires Agrees(members, v)
    ensures Agrees(members - {m}, Dropped(v, m))
  {
  }

  lemma ListedAgrees(members: Members, v: FileState, lost: Members)
    requires Agrees(members, v)
    ensures Agrees(members, Listed(v, lost))
  {
  }

  lemma HitAgrees(members: Members, v: FileState, a: Action, f: string)
    requires Agrees(members, v) && Refills(a)
    ensures Agrees(MembersAfter(members, a), Hit(v, a, f))
  {
    match a {
      case Fail(m, _) => DroppedAgrees(members, v, m);
      case Takeover(m, lost, _) =>
        DroppedAgrees(members, v, m);
        ListedAgrees(members - {m}, Dropped(v, m), Chosen(lost, f));
      case Lead(m, lost, _) => ListedAgrees(members + {m}, v, Chosen(lost, f));
    }
  }

  lemma CommandedAgrees(members: Members, v: FileState, targets: Members)
    requires Agrees(members, v) && (targets != {} ==> Choice(members, v.index, targets))
    ensures Agrees(members, v.(copies := v.copies + targets))
  {
  }

  lemma FinishedAgrees(members: Members, v: FileState, m: nat)
    requires Agrees(members, v) && m in v.copies
    ensures Agrees(members, Finished(v, m))
  {
  }

  lemma ReportedAgrees(members: Members, v: FileState, m: nat)
    requires Agrees(members, v) && m in v.updates
    ensures Agrees(members, Reported(v, m))
  {
  }

  lemma QuietStepAgrees(s: Store, a: Action, f: string)
    requires Agrees(s.members, At(s, f)) && Apply(s, a).Some? && a != Del(f) && !Refills(a) && !a.Join?
    ensures Agrees(s.members, At(Apply(s, a).value, f))
  {
    var v, w := At(s, f), At(Apply(s, a).value, f);
    QuietStepOnFile(s, a, f);
    if w != v {
      match a
      case Put(_, _, _) =>
      case Finish(m, _) => FinishedAgrees(s.members, v, m);
      case Report(m, _) => ReportedAgrees(s.members, v, m);
    }
  }

  /** Every step but a deletion keeps the agreement, whatever is under way. */
  lemma StepAgrees(s: Store, a: Action, f: string)
    requires Agrees(s.members, At(s, f)) && Apply(s, a).Some? && a != Del(f)
    ensures Agrees(Apply(s, a).value.members, At(Apply(s, a).value, f))
  {
    if Refills(a) {
      if f in s.files {
        StepOnFile(s, a, f);
        HitAgrees(s.members, s.files[f], a, f);
        CommandedAgrees(MembersAfter(s.members, a), Hit(s.files[f], a, f), Chosen(a.plan, f));
      }
    } else if !a.Join? {
      QuietStepAgrees(s, a, f);
    }
  }

  /** A deletion keeps it if and only if the index holds nobody whose report is still under way. */
  lemma DeletionAgreesExactly(s: Store, f: string)
    requires Agrees(s.members, At(s, f))
    ensures Agrees(s.members, At(Apply(s, Del(f)).value, f)) <==> At(s, f).index !! At(s, f).updates
  {
    var v := At(s, f);
    if v.index != {} {
      assert Deleted(v, s.members).index == {};
      assert Deleted(v, s.members).local == v.updates - v.index;
    }
  }

  // ---- failures and new masters ----

  lemma HitCanBeFilled(members: Members, v: FileState, a: Action, f: string)
    requires Agrees(members, v) && Refills(a) && v.copies == {} && (a.Fail? ==> v.updates == {})
    ensures Fillable(MembersAfter(members, a), Hit(v, a, f))
  {
    HitAgrees(members, v, a, f);
  }

  lemma InvAgrees(members: Members, v: FileState)
    requires FileInv(members, v)
    ensures Agrees(members, v)
  {
    assert v.local <= Committed(v) && v.copies <= Committed(v);
  }

  lemma FailureRestores(s: Store, a: Action, f: string)
    requires FileInv(s.members, At(s, f)) && Orderly(s, a) && Apply(s, a).Some? && Refills(a)
    ensures var t := Apply(s, a).value; FileInv(t.members, At(t, f)) && FileFull(t.members, At(t, f))
  {
    if f in s.files {
      StepOnFile(s, a, f);
      InvAgrees(s.members, s.files[f]);
      HitCanBeFilled(s.members, s.files[f], a, f);
      CommandedIsFull(MembersAfter(s.members, a), Hit(s.files[f], a, f), Chosen(a.plan, f));
    } else {
      assert At(Apply(s, a).value, f) == NOWHERE;
    }
  }

  lemma JoinKeepsFile(s: Store, m: nat, f: string)
    requires FileInv(s.members, At(s, f)) && m !in s.members
    ensures FileInv(s.members + {m}, At(s, f))
    ensures |s.members| >= MAX_REPLICATE && FileFull(s.members, At(s, f)) ==> FileFull(s.members + {m}, At(s, f))
  {
    assert |s.members + {m}| == |s.members| + 1;
  }

  lemma StepKeepsFile(s: Store, a: Action, f: string)
    requires FileInv(s.members, At(s, f)) && Orderly(s, a) && Apply(s, a).Some?
    ensures var t := Apply(s, a).value;
      && FileInv(t.members, At(t, f))
      && ((FileFull(s.members, At(s, f)) && (a.Join? ==> |s.members| >= MAX_REPLICATE)) || Refills(a) ==>
            FileFull(t.members, At(t, f)))
  {
    if Refills(a) {
      FailureRestores(s, a, f);
    } else if a.Join? {
      JoinKeepsFile(s, a.m, f);
    } else {
      QuietStepKeepsFile(s, a, f);
    }
  }

  lemma StepKeepsInv(s: Store, a: Action)
    requires Inv(s) && Orderly(s, a) && Apply(s, a).Some?
    ensures Inv(Apply(s, a).value)
    ensures Full(s) && (a.Join? ==> |s.members| >= MAX_REPLICATE) ==> Full(Apply(s, a).value)
    ensures Refills(a) ==> Full(Apply(s, a).value)
  {
    forall f ensures FileInv(Apply(s, a).value.members, At(Apply(s, a).value, f)) {
      StepKeepsFile(s, a, f);
    }
    if (Full(s) && (a.Join? ==> |s.members| >= MAX_REPLICATE)) || Refills(a) {
      forall f ensures FileFull(Apply(s, a).value.members, At(Apply(s, a).value, f)) {
        StepKeepsFile(s, a, f);
      }
    }
  }

  /** A PUT of a file that anybody holds, or is about to hold, is refused and changes nothing. */
  lemma SecondPutIsRefused(s: Store, r: nat, f: string, targets: Members)
    requires Inv(s) && Committed(At(s, f)) != {} && r in s.members
    ensures Apply(s, Put(r, f, targets)) == Some(s)
  {
    assert FileInv(s.members, At(s, f));
  }

  // ---- runs ----

  function Run(s: Store, actions: seq<Action>): Option<Store>
    decreases |actions|
  {
    if actions == [] then Some(s)
    else match Run(s, actions[..|actions| - 1])
      case None => None
      case Some(t) => Apply(t, actions[|actions| - 1])
  }

  ghost predicate OrderlyRun(s: Store, actions: seq<Action>)
    decreases |actions|
  {
    actions != [] ==>
      && OrderlyRun(s, actions[..|actions| - 1])
      && Run(s, actions[..|actions| - 1]).Some?
      && Orderly(Run(s, actions[..|actions| - 1]).value, actions[|actions| - 1])
  }

  /** Nobody joins a group smaller than the number of replicas, except to become its master. */
  ghost predicate NoSmallJoin(s: Store, actions: seq<Action>)
    decreases |actions|
  {
    actions != [] ==>
      && NoSmallJoin(s, actions[..|actions| - 1])
      && (actions[|actions| - 1].Join? ==>
            Run(s, actions[..|actions| - 1]).Some? && |Run(s, actions[..|actions| - 1]).value.members| >= MAX_REPLICATE)
  }

  lemma {:induction false} RunsStayOrdered(s: Store, actions: seq<Action>)
    requires Inv(s) && OrderlyRun(s, actions) && Run(s, actions).Some?
    ensures Inv(Run(s, actions).value)
    ensures Full(s) && NoSmallJoin(s, actions) ==> Full(Run(s, actions).value)
    decreases |actions|
  {
    if actions != [] {
      RunsStayOrdered(s, actions[..|actions| - 1]);
      StepKeepsInv(Run(s, actions[..|actions| - 1]).value, actions[|actions| - 1]);
    }
  }

  function Start(members: Members): Store { Store(members, map[], map[]) }

  // ---- agreement over runs ----

  /** Whenever the file is deleted, no member of the index has a report of it under way, and whenever
      a member fails, no former master commands anything. */
  ghost predicate GuardedRun(s: Store, actions: seq<Action>, f: string)
    decreases |actions|
  {
    actions != [] ==>
      && GuardedRun(s, actions[..|actions| - 1], f)
      && Run(s, actions[..|actions| - 1]).Some?
      && Guarded(Run(s, actions[..|actions| - 1]).value, actions[|actions| - 1], f)
  }

  predicate Guarded(s: Store, a: Action, f: string) {
    && (a == Del(f) ==> At(s, f).index !! At(s, f).updates)
    && (a.Fail? || a.Takeover? ==> FormersQuiet(s, a.m))
  }

  lemma {:induction false} RunsAgree(s: Store, actions: seq<Action>, f: string)
    requires Agrees(s.members, At(s, f)) && GuardedRun(s, actions, f) && Run(s, actions).Some?
    ensures Agrees(Run(s, actions).value.members, At(Run(s, actions).value, f))
    decreases |actions|
  {
    if actions != [] {
      var before := actions[..|actions| - 1];
      RunsAgree(s, before, f);
      if actions[|actions| - 1] == Del(f) {
        DeletionAgreesExactly(Run(s, before).value, f);
      } else {
        StepAgrees(Run(s, before).value, actions[|actions| - 1], f);
      }
    }
  }

  /** Index agreement, over all guarded runs, whatever is under way when members fail: according to the
      index m holds f exactly when it does according to m, except for reports under way, and a
      report under way is true.  If the run is orderly, at most three members hold the file. */
  lemma {:induction false} IndexAgreesWithStores(members: Members, actions: seq<Action>, m: nat, f: string)
    requires GuardedRun(Start(members), actions, f) && Run(Start(members), actions).Some?
    ensures var v := At(Run(Start(members), actions).value, f);
      && (m in v.local <==> m in v.index || m in v.updates)
      && (m in v.local ==> m in Run(Start(members), actions).value.members)
      && (OrderlyRun(Start(members), actions) ==> |v.index| <= MAX_REPLICATE)
  {
    var t := Run(Start(members), actions).value;
    RunsAgree(Start(members), actions, f);
    if OrderlyRun(Start(members), actions) {
      RunsStayOrdered(Start(members), actions);
      assert FileInv(t.members, At(t, f));
      SubsetSize(At(t, f).index, Committed(At(t, f)));
    }
  }

  /** Replication, over all orderly runs of puts, deletions, failures, takeovers and joins of a
      group that has enough members: whenever nothing is under way for a file that exists, it is
      held by exactly min(n, 3) members, and the master knows them. */
  lemma {:induction false} EveryFileIsReplicated(members: Members, actions: seq<Action>, f: string)
    requires OrderlyRun(Start(members), actions) && NoSmallJoin(Start(members), actions)
    requires Run(Start(members), actions).Some?
    ensures var t := Run(Start(members), actions).value;
      var v := At(t, f);
      SettledFile(v) && v.local != {} ==> v.index == v.local && |v.local| == Wanted(t.members)
  {
    var t := Run(Start(members), actions).value;
    RunsStayOrdered(Start(members), actions);
    assert FileInv(t.members, At(t, f)) && FileFull(t.members, At(t, f));
    assert SettledFile(At(t, f)) ==> Committed(At(t, f)) == At(t, f).local;
  }

  // ---- no file is lost ----

  /** A failure leaves a file with a holder if and only if the failed member was not its only one. */
  lemma SurvivesExactly(s: Store, a: Action, f: string)
    requires Inv(s) && Orderly(s, a) && Apply(s, a).Some? && (a.Fail? || a.Takeover?)
    requires At(s, f).local != {}
    ensures At(Apply(s, a).value, f).index != {} <==> At(s, f).local != {a.m}
  {
    assert FileInv(s.members, At(s, f));
    var v := At(s, f);
    assert v.local - {a.m} == {} <==> v.local == {a.m};
  }

  ghost predicate NeverLastOne(s: Store, actions: seq<Action>)
    decreases |actions|
  {
    actions != [] ==>
      && NeverLastOne(s, actions[..|actions| - 1])
      && (actions[|actions| - 1].Fail? || actions[|actions| - 1].Takeover? ==>
            Run(s, actions[..|actions| - 1]).Some? && |Run(s, actions[..|actions| - 1]).value.members| >= 2)
  }

  lemma StepKeepsFileKnown(s: Store, a: Action, f: string)
    requires Inv(s) && Full(s) && Orderly(s, a) && Apply(s, a).Some?
    requires a.Fail? || a.Takeover? ==> |s.members| >= 2
    requires a != Del(f) && At(s, f).index != {}
    ensures At(Apply(s, a).value, f).index != {}
  {
    var v := At(s, f);
    assert FileInv(s.members, v) && FileFull(s.members, v);
    if a.Fail? || a.Takeover? {
      assert Committed(v) == v.local;
      assert |v.local| >= 2;
      assert v.local != {a.m};
      SurvivesExactly(s, a, f);
    } else if a.Lead? {
      ListedStaysKnown(s, a, f);
    }
  }

  lemma ListedStaysKnown(s: Store, a: Action, f: string)
    requires a.Lead? && Apply(s, a).Some? && At(s, f).local != {}
    ensures At(Apply(s, a).value, f).index != {}
  {
    StepOnFile(s, a, f);
  }

  /** Through any number of settled failures, of the master too, a file stays until it is deleted. */
  lemma {:induction false} NoFileIsLost(s: Store, actions: seq<Action>, f: string)
    requires Inv(s) && Full(s) && At(s, f).index != {} && Del(f) !in actions
    requires OrderlyRun(s, actions) && NoSmallJoin(s, actions) && NeverLastOne(s, actions) && Run(s, actions).Some?
    ensures At(Run(s, actions).value, f).index != {}
    decreases |actions|
  {
    if actions != [] {
      var before := actions[..|actions| - 1];
      NoFileIsLost(s, before, f);
      RunsStayOrdered(s, before);
      StepKeepsFileKnown(Run(s, before).value, actions[|actions| - 1], f);
    }
  }

  // ---- settling ----

  /** Finishing and reporting always make progress and change nothing else, so what is under way
      settles, whatever the order, with every committed member holding the file. */
  function Pending(v: FileState): nat { 2 * |v.copies| + |v.updates| }

  lemma SettlingProgress(s: Store, a: Action)
    requires Inv(s) && (a.Finish? || a.Report?) && Apply(s, a).Some?
    ensures var t := Apply(s, a).value;
      && Pending(At(t, a.f)) < Pending(At(s, a.f))
      && Committed(At(t, a.f)) == Committed(At(s, a.f))
      && t == s.(files := s.files[a.f := At(t, a.f)])
  {
    var v := At(s, a.f);
    assert FileInv(s.members, v);
    if a.Finish? {
      FinishedKeeps(s.members, v, a.m);
      assert |v.copies - {a.m}| == |v.copies| - 1;
    } else {
      ReportedKeeps(s.members, v, a.m);
      assert |v.updates - {a.m}| == |v.updates| - 1;
    }
  }

  // ---- how long a deletion holds ----

  /** Everybody that has anything to do with the file. */
  function Trace(v: FileState): Members { v.index + v.local + v.copies + v.updates }

  /** Copies and reports arrive, and other files are put and deleted. */
  predicate LeavesAlone(a: Action, f: string) {
    match a
    case Put(_, g, _) => g != f
    case Del(g) => g != f
    case Finish(_, _) => true
    case Report(_, _) => true
    case _ => false
  }

  lemma TraceStays(s: Store, a: Action, f: string)
    requires LeavesAlone(a, f) && Apply(s, a).Some?
    ensures Trace(At(Apply(s, a).value, f)) == Trace(At(s, f))
  {
    QuietStepOnFile(s, a, f);
  }

  lemma {:induction false} TraceStaysOverRuns(s: Store, actions: seq<Action>, f: string)
    requires (forall a :: a in actions ==> LeavesAlone(a, f)) && Run(s, actions).Some?
    ensures Trace(At(Run(s, actions).value, f)) == Trace(At(s, f))
    decreases |actions|
  {
    if actions != [] {
      var before := actions[..|actions| - 1];
      TraceStaysOverRuns(s, before, f);
      TraceStays(Run(s, before).value, actions[|actions| - 1], f);
    }
  }

  /** Over whole runs: however long the copies and reports take, a deleted file is gone if and only
      if nothing was under way for it when it was deleted; otherwise it is back once they arrive. */
  lemma DeletionHoldsExactly(s: Store, f: string, actions: seq<Action>)
    requires FileInv(s.members, At(s, f))
    requires forall a :: a in actions ==> LeavesAlone(a, f)
    requires Run(Apply(s, Del(f)).value, actions).Some?
    ensures var w := At(Run(Apply(s, Del(f)).value, actions).value, f);
      && (w == NOWHERE <==> SettledFile(At(s, f)))
      && (SettledFile(w) && !SettledFile(At(s, f)) ==> w.index != {} || w.local != {})
  {
    var t := Apply(s, Del(f)).value;
    DeletedExactly(s.members, At(s, f));
    assert At(t, f) == NOWHERE <==> SettledFile(At(s, f));
    TraceStaysOverRuns(t, actions, f);
    TraceOfNowhere(At(t, f));
    TraceOfNowhere(At(Run(t, actions).value, f));
  }

  lemma TraceOfNowhere(v: FileState)
    ensures Trace(v) == {} <==> v == NOWHERE
  {
    assert v.index <= Trace(v) && v.local <= Trace(v) && v.copies <= Trace(v) && v.updates <= Trace(v);
  }

  // ---- sampling ----

  lemma {:induction false} SomeSubset(candidates: Members, n: nat) returns (targets: Members)
    requires n <= |candidates|
    ensures targets <= candidates && |targets| == n
  {
    if n == 0 {
      targets := {};
    } else {
      var x :| x in candidates;
      targets := SomeSubset(candidates - {x}, n - 1);
      targets := targets + {x};
    }
  }

  /** The sampling loop can come to an end if and only if the file has not too many replicas. */
  lemma ChoiceExactly(members: Members, index: Members)
    requires index <= members
    ensures (exists targets :: Choice(members, index, targets)) <==> |index| <= Wanted(members)
  {
    assert |members - index| == |members| - |index|;
    if |index| <= Wanted(members) {
      var targets := SomeSubset(members - index, Wanted(members) - |index|);
      assert Choice(members, index, targets);
    }
  }

  /** So in every state an orderly run can reach, a file that is replicated again, or put, finds
      its targets, whether or not the failure or the change of the master is orderly itself. */
  lemma ReplicationNeverHangs(s: Store, f: string, a: Action)
    requires Inv(s)
    ensures Refills(a) ==> exists targets :: Choice(MembersAfter(s.members, a), Hit(At(s, f), a, f).index, targets)
    ensures a.Put? && a.r in s.members ==> exists targets :: Choice(s.members, {a.r}, targets)
  {
    assert FileInv(s.members, At(s, f));
    if Refills(a) {
      HitIsSmall(s.members, At(s, f), a, f);
      WantedIsEnough(MembersAfter(s.members, a), Hit(At(s, f), a, f).index);
      ChoiceExactly(MembersAfter(s.members, a), Hit(At(s, f), a, f).index);
    } else if a.Put? && a.r in s.members {
      WantedIsEnough(s.members, {a.r});
      ChoiceExactly(s.members, {a.r});
    }
  }

  lemma HitIsSmall(members: Members, v: FileState, a: Action, f: string)
    requires FileInv(members, v) && Refills(a)
    ensures var w, left := Hit(v, a, f), MembersAfter(members, a);
      w.index <= Committed(w) <= left && |Committed(w)| <= MAX_REPLICATE && |w.index| <= MAX_REPLICATE
  {
    var w := Hit(v, a, f);
    assert Committed(w) <= Committed(v);
    SubsetSize(Committed(w), Committed(v));
    SubsetSize(w.index, Committed(w));
  }

  // ---- how much order is needed ----

  /** Whatever is drawn for the file, nobody is asked for too many copies. */
  ghost predicate NeverTooMany(left: Members, w: FileState) {
    forall targets :: Choice(left, w.index, targets) ==> |Committed(w.(copies := w.copies + targets))| <= Wanted(left)
  }

  /** A failure, or a change of the master, while something is under way that the index does not
      know asks for too many copies of the file, for some draw, if and only if there are then more
      than three members: otherwise the draw is forced to name everybody. */
  lemma OverReplicationExactly(members: Members, v: FileState, a: Action, f: string)
    requires FileInv(members, v) && Refills(a)
    ensures var w, left := Hit(v, a, f), MembersAfter(members, a);
      NeverTooMany(left, w) <==> Committed(w) == w.index || |left| <= MAX_REPLICATE
  {
    var w, left := Hit(v, a, f), MembersAfter(members, a);
    HitIsSmall(members, v, a, f);
    if Committed(w) == w.index || |left| <= MAX_REPLICATE {
      forall targets | Choice(left, w.index, targets)
        ensures |Committed(w.(copies := w.copies + targets))| <= Wanted(left)
      {
        NotTooMany(left, w, targets);
      }
    } else {
      var targets := DrawAround(left, w);
    }
  }

  lemma NotTooMany(left: Members, w: FileState, targets: Members)
    requires w.index <= Committed(w) <= left && Choice(left, w.index, targets)
    requires Committed(w) == w.index || |left| <= MAX_REPLICATE
    ensures |Committed(w.(copies := w.copies + targets))| <= Wanted(left)
  {
    assert Committed(w.(copies := w.copies + targets)) == Committed(w) + targets;
    if Committed(w) == w.index {
      assert |w.index + targets| == |w.index| + |targets|;
    } else {
      SubsetSize(Committed(w) + targets, left);
    }
  }

  /** A draw that leaves out a member to which a copy is under way. */
  lemma DrawAround(left: Members, w: FileState) returns (targets: Members)
    requires w.index <= Committed(w) <= left && Committed(w) != w.index && |left| > MAX_REPLICATE
    requires |Committed(w)| <= MAX_REPLICATE
    ensures Choice(left, w.index, targets) && |Committed(w.(copies := w.copies + targets))| > Wanted(left)
  {
    assert Committed(w) - w.index != {};
    var x :| x in Committed(w) - w.index;
    var free := left - (w.index + {x});
    assert |w.index + {x}| == |w.index| + 1 && |free| == |left| - |w.index + {x}|;
    SubsetSize(w.index + {x}, Committed(w));
    targets := SomeSubset(free, Wanted(left) - |w.index|);
    var all := w.index + {x} + targets;
    assert |all| == |w.index + {x}| + |targets|;
    SubsetSize(all, Committed(w.(copies := w.copies + targets)));
  }

  /** A join leaves a fully replicated file fully replicated if and only if the group has enough
      members already or the joiner becomes its master. */
  lemma JoinFullExactly(s: Store, a: Action, f: string)
    requires FileInv(s.members, At(s, f)) && FileFull(s.members, At(s, f)) && Committed(At(s, f)) != {}
    requires (a.Join? || a.Lead?) && Orderly(s, a) && Apply(s, a).Some?
    ensures FileFull(Apply(s, a).value.members, At(Apply(s, a).value, f)) <==>
            |s.members| >= MAX_REPLICATE || IsMaster(s.members + {a.m}, a.m)
  {
    if a.Lead? {
      FailureRestores(s, a, f);
    } else {
      assert |s.members + {a.m}| == |s.members| + 1;
    }
  }
}
