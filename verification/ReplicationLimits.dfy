/** Runs that show why the surroundings have to be orderly. */
module ReplicationLimits {
  import opened Commands
  import opened FailureRounds
  import opened Options
  import opened Replication
  import opened ReplicationTheorems

  lemma Extended(s: Store, actions: seq<Action>, t: Store, a: Action, u: Store)
    requires Run(s, actions) == Some(t) && Apply(t, a) == Some(u)
    ensures Run(s, actions + [a]) == Some(u)
  {
    assert (actions + [a])[..|actions + [a]| - 1] == actions;
  }

  lemma ExtendedOrderly(s: Store, actions: seq<Action>, t: Store, a: Action)
    requires Run(s, actions) == Some(t) && OrderlyRun(s, actions) && NeverLastOne(s, actions)
    requires Orderly(t, a) && (a.Fail? || a.Takeover? ==> |t.members| >= 2)
    ensures OrderlyRun(s, actions + [a]) && NeverLastOne(s, actions + [a])
  {
    assert (actions + [a])[..|actions + [a]| - 1] == actions;
  }

  /** A store with one file. */
  function One(members: Members, f: string, v: FileState): Store { Store(members, map[f := v], map[]) }

  /** What a step does to the file, when it is enabled. */
  function Moved(members: Members, v: FileState, a: Action): FileState {
    match a
    case Put(r, _, targets) => Stored(v, r, targets)
    case Finish(m, _) => Finished(v, m)
    case Report(m, _) => Reported(v, m)
    case Del(_) => Deleted(v, members)
    case _ => v
  }

  predicate Moves(members: Members, f: string, v: FileState, a: Action) {
    || (a.Put? && a.f == f && a.r in members && v.index == {} && Choice(members, {a.r}, a.targets))
    || (a.Finish? && a.f == f && a.m in v.copies)
    || (a.Report? && a.f == f && a.m in v.updates)
    || (a == Del(f) && v.index != {})
  }

  lemma OneStep(members: Members, f: string, v: FileState, a: Action)
    requires Moves(members, f, v, a)
    ensures Apply(One(members, f, v), a) == Some(One(members, f, Moved(members, v, a)))
  {
    forall w: FileState ensures map[f := v][f := w] == map[f := w] {
    }
  }

  lemma OneMore(s: Store, actions: seq<Action>, members: Members, f: string, v: FileState, a: Action)
    requires Run(s, actions) == Some(One(members, f, v)) && Moves(members, f, v, a)
    ensures Run(s, actions + [a]) == Some(One(members, f, Moved(members, v, a)))
  {
    OneStep(members, f, v, a);
    Extended(s, actions, One(members, f, v), a, One(members, f, Moved(members, v, a)));
  }

  lemma PutApplies(members: Members, r: nat, f: string, targets: Members)
    requires r in members && Choice(members, {r}, targets)
    ensures Apply(Start(members), Put(r, f, targets)) == Some(One(members, f, FileState({r}, {r}, targets, {})))
  {
    assert Stored(NOWHERE, r, targets) == FileState({r}, {r}, targets, {});
  }

  /** A deletion misses the member that has just finished its copy. */
  lemma DeletedTooEarly(f: string) returns (actions: seq<Action>)
    ensures actions == [Put(0, f, {1, 2}), Finish(1, f), Del(f)]
    ensures Run(Start({0, 1, 2}), actions) == Some(One({0, 1, 2}, f, FileState({}, {1}, {2}, {1})))
  {
    var s, m, v := Start({0, 1, 2}), {0, 1, 2}, FileState({0}, {0}, {1, 2}, {});
    assert Run(s, []) == Some(s);
    PutApplies(m, 0, f, {1, 2});
    Extended(s, [], s, Put(0, f, {1, 2}), One(m, f, v));
    actions := [] + [Put(0, f, {1, 2})];
    OneMore(s, actions, m, f, v, Finish(1, f));
    actions := actions + [Finish(1, f)];
    FirstCopyArrives(m);
    OneMore(s, actions, m, f, Finished(v, 1), Del(f));
    actions := actions + [Del(f)];
  }

  lemma FirstCopyArrives(members: Members)
    requires members == {0, 1, 2}
    ensures Finished(FileState({0}, {0}, {1, 2}, {}), 1) == FileState({0}, {0, 1}, {2}, {1})
    ensures Deleted(FileState({0}, {0, 1}, {2}, {1}), members) == FileState({}, {1}, {2}, {1})
  {
  }

  /** The report then puts the deleted file back into the index. */
  lemma DeletionUnderWayComesBack(f: string) returns (actions: seq<Action>)
    ensures actions == [Put(0, f, {1, 2}), Finish(1, f), Del(f), Report(1, f)]
    ensures Run(Start({0, 1, 2}), actions) == Some(One({0, 1, 2}, f, FileState({1}, {1}, {2}, {})))
  {
    actions := DeletedTooEarly(f);
    assert Reported(FileState({}, {1}, {2}, {1}), 1) == FileState({1}, {1}, {2}, {});
    OneMore(Start({0, 1, 2}), actions, {0, 1, 2}, f, FileState({}, {1}, {2}, {1}), Report(1, f));
    actions := actions + [Report(1, f)];
  }

  /** Or the member puts the file again and it is deleted again, while its report is still under way:
      the report is then false, and the index will list a member that does not hold the file. */
  lemma DeletionLeavesFalseReport(f: string) returns (actions: seq<Action>)
    ensures actions == [Put(0, f, {1, 2}), Finish(1, f), Del(f), Put(1, f, {0, 2}), Del(f)]
    ensures Run(Start({0, 1, 2}), actions) == Some(One({0, 1, 2}, f, FileState({}, {}, {0, 2}, {1})))
  {
    var s, m, v := Start({0, 1, 2}), {0, 1, 2}, FileState({}, {1}, {2}, {1});
    actions := DeletedTooEarly(f);
    SecondPutAndDeletion(m);
    OneMore(s, actions, m, f, v, Put(1, f, {0, 2}));
    actions := actions + [Put(1, f, {0, 2})];
    OneMore(s, actions, m, f, Stored(v, 1, {0, 2}), Del(f));
    actions := actions + [Del(f)];
  }

  lemma SecondPutAndDeletion(members: Members)
    requires members == {0, 1, 2}
    ensures Choice(members, {1}, {0, 2})
    ensures Stored(FileState({}, {1}, {2}, {1}), 1, {0, 2}) == FileState({1}, {1}, {0, 2}, {1})
    ensures Deleted(FileState({1}, {1}, {0, 2}, {1}), members) == FileState({}, {}, {0, 2}, {1})
  {
    assert |{0, 2}| == 2;
  }

  /** A member that joins a small group and does not become its master does not make the files be
      replicated again, so the failure of the only holder, here the master, loses a file although
      the group has two members. */
  lemma SmallJoinLosesAFile(f: string) returns (actions: seq<Action>)
    ensures actions == [Put(0, f, {}), Join(1), Takeover(0, map[], map[])]
    ensures Run(Start({0}), actions).Some? && OrderlyRun(Start({0}), actions) && NeverLastOne(Start({0}), actions)
    ensures At(Run(Start({0}), actions).value, f) == NOWHERE
  {
    var v, s0 := FileState({0}, {0}, {}, {}), Start({0});
    var a0, a1, a2 := Put(0, f, {}), Join(1), Takeover(0, map[], map[]);
    PutApplies({0}, 0, f, {});
    assert Run(s0, []) == Some(s0);
    Extended(s0, [], s0, a0, One({0}, f, v));
    ExtendedOrderly(s0, [], s0, a0);
    assert {0} + {1} == {0, 1};
    Extended(s0, [] + [a0], One({0}, f, v), a1, One({0, 1}, f, v));
    ExtendedOrderly(s0, [] + [a0], One({0}, f, v), a1);
    LastHolderFails(f);
    Extended(s0, [] + [a0] + [a1], One({0, 1}, f, v), a2, One({1}, f, NOWHERE));
    ExtendedOrderly(s0, [] + [a0] + [a1], One({0, 1}, f, v), a2);
    actions := [] + [a0] + [a1] + [a2];
  }

  lemma LastHolderFails(f: string)
    ensures Apply(One({0, 1}, f, FileState({0}, {0}, {}, {})), Takeover(0, map[], map[]))
         == Some(One({1}, f, NOWHERE))
  {
    var s := One({0, 1}, f, FileState({0}, {0}, {}, {}));
    assert Dropped(FileState({0}, {0}, {}, {}), 0) == NOWHERE;
    assert Without(s, 0) == One({1}, f, NOWHERE);
    assert Listed(NOWHERE, {}) == NOWHERE;
    assert Relisted(Without(s, 0), map[]) == One({1}, f, NOWHERE);
    assert Commanded(One({1}, f, NOWHERE).files, map[]) == One({1}, f, NOWHERE).files;
  }

  /** A failure while copies are under way makes the master ask for them a second time.  With five
      replicas the number of missing ones is negative, and the next failure finds no targets: the
      sampling loop of the master does not end. */
  lemma UnsettledFailureHangsTheMaster(f: string, plan: Plan) returns (actions: seq<Action>)
    ensures Run(Start({0, 1, 2, 3, 4, 5}), actions).Some?
    ensures var t := Run(Start({0, 1, 2, 3, 4, 5}), actions).value;
      At(t, f).index == t.members == {0, 1, 2, 3, 4} && IsMaster(t.members, 0) && Apply(t, Fail(1, plan)).None?
  {
    actions := CommandedTwice(f);
    var m := {0, 1, 2, 3, 4};
    actions := CopiesSettle(Start({0, 1, 2, 3, 4, 5}), actions, m, f, {1, 2, 3, 4}, {0});
    assert {0} + {1, 2, 3, 4} == m;
    Sizes();
    TooManyReplicas(m, f, FileState(m, m, {}, {}), 1, plan);
  }

  lemma CommandedTwice(f: string) returns (actions: seq<Action>)
    ensures Run(Start({0, 1, 2, 3, 4, 5}), actions)
         == Some(One({0, 1, 2, 3, 4}, f, FileState({0}, {0}, {1, 2, 3, 4}, {})))
  {
    var all, m, s0 := {0, 1, 2, 3, 4, 5}, {0, 1, 2, 3, 4}, Start({0, 1, 2, 3, 4, 5});
    var a0, a1 := Put(0, f, {1, 2}), Fail(5, map[f := {3, 4}]);
    var v := FileState({0}, {0}, {1, 2}, {});
    Sizes();
    PutApplies(all, 0, f, {1, 2});
    assert Run(s0, []) == Some(s0);
    Extended(s0, [], s0, a0, One(all, f, v));
    CommandedAgain(f);
    Extended(s0, [] + [a0], One(all, f, v), a1, One(m, f, FileState({0}, {0}, {1, 2, 3, 4}, {})));
    actions := [] + [a0] + [a1];
  }

  lemma CommandedAgain(f: string)
    ensures Apply(One({0, 1, 2, 3, 4, 5}, f, FileState({0}, {0}, {1, 2}, {})), Fail(5, map[f := {3, 4}]))
         == Some(One({0, 1, 2, 3, 4}, f, FileState({0}, {0}, {1, 2, 3, 4}, {})))
  {
    var v := FileState({0}, {0}, {1, 2}, {});
    assert Dropped(v, 5) == v;
    Sizes();
    FailureCommandsMore({0, 1, 2, 3, 4, 5}, f, v, 5, 0, {3, 4});
    assert {1, 2} + {3, 4} == {1, 2, 3, 4};
  }

  /** No plan exists for a failure that leaves a file with more holders than it may have. */
  lemma TooManyReplicas(members: Members, f: string, v: FileState, m: nat, plan: Plan)
    requires |v.index - {m}| > Wanted(members - {m})
    ensures Apply(One(members, f, v), Fail(m, plan)).None?
  {
    var u := Without(One(members, f, v), m);
    assert u.files[f] == Dropped(v, m);
  }

  lemma Sizes()
    ensures |{0, 1, 2, 3, 4}| == 5 && |{0, 2, 3, 4}| == 4 && |{1, 2}| == |{3, 4}| == 2
    ensures {0, 1, 2, 3, 4, 5} - {5} == {0, 1, 2, 3, 4} && {0, 1, 2, 3, 4} - {1} == {0, 2, 3, 4}
    ensures |{0, 1, 2, 3, 4, 5}| == 6
  {
  }

  /** A failure elsewhere makes the master choose the targets a second time. */
  lemma FailureCommandsMore(members: Members, f: string, v: FileState, m: nat, master: nat, targets: Members)
    requires m in members && master in members && master < m && Dropped(v, m) == v && v.index != {}
    requires Choice(members - {m}, v.index, targets)
    ensures Apply(One(members, f, v), Fail(m, map[f := targets]))
         == Some(One(members - {m}, f, v.(copies := v.copies + targets)))
  {
    assert !IsMaster(members, m);
    assert Without(One(members, f, v), m) == One(members - {m}, f, v);
    assert Commanded(map[f := v], map[f := targets]) == map[f := v.(copies := v.copies + targets)];
  }

  /** Copies under way arrive and are reported, one after the other. */
  lemma {:induction false} CopiesSettle(s: Store, before: seq<Action>, members: Members, f: string, copies: Members,
      held: Members)
    returns (actions: seq<Action>)
    requires copies !! held && Run(s, before) == Some(One(members, f, FileState(held, held, copies, {})))
    ensures Run(s, actions) == Some(One(members, f, FileState(held + copies, held + copies, {}, {})))
    ensures OrderlyRun(s, before) ==> OrderlyRun(s, actions)
    decreases |copies|
  {
    if copies == {} {
      actions := before;
      assert held + copies == held;
    } else {
      var m :| m in copies;
      OneCopySettles(s, before, members, f, copies, held, m);
      OneMoved(held, copies, m);
      actions := CopiesSettle(s, before + [Finish(m, f)] + [Report(m, f)], members, f, copies - {m}, held + {m});
    }
  }

  lemma OneMoved(held: Members, copies: Members, m: nat)
    requires m in copies && copies !! held
    ensures held + {m} + (copies - {m}) == held + copies && copies - {m} !! held + {m}
    ensures |copies - {m}| == |copies| - 1
  {
  }

  lemma OneCopySettles(s: Store, before: seq<Action>, members: Members, f: string, copies: Members, held: Members,
      m: nat)
    requires copies !! held && Run(s, before) == Some(One(members, f, FileState(held, held, copies, {}))) && m in copies
    ensures Run(s, before + [Finish(m, f)] + [Report(m, f)])
         == Some(One(members, f, FileState(held + {m}, held + {m}, copies - {m}, {})))
    ensures OrderlyRun(s, before) ==> OrderlyRun(s, before + [Finish(m, f)] + [Report(m, f)])
  {
    var v, u := FileState(held, held, copies, {}), FileState(held, held + {m}, copies - {m}, {m});
    assert Finished(v, m) == u;
    assert Reported(u, m) == FileState(held + {m}, held + {m}, copies - {m}, {});
    OneMore(s, before, members, f, v, Finish(m, f));
    OneMore(s, before + [Finish(m, f)], members, f, u, Report(m, f));
    ArrivalsAreOrderly(s, before, Finish(m, f));
    ArrivalsAreOrderly(s, before + [Finish(m, f)], Report(m, f));
  }

  lemma ArrivalsAreOrderly(s: Store, actions: seq<Action>, a: Action)
    requires Run(s, actions).Some? && (a.Finish? || a.Report? || a.Put?)
    ensures OrderlyRun(s, actions) ==> OrderlyRun(s, actions + [a])
  {
    assert (actions + [a])[..|actions + [a]| - 1] == actions;
  }

  // ---- a former master ----

  /** After 0 has joined and become master, 1 still has its index, and the failure of 4 is not quiet:
      one of three holders is gone according to 1 as well. */
  function Displacing(f: string): Store {
    Store({0, 1, 2, 3, 4, 5}, map[f := FileState({2, 3, 4}, {2, 3, 4}, {}, {})], map[1 := map[f := {2, 3, 4}]])
  }

  lemma LeadershipMoves(f: string) returns (actions: seq<Action>)
    ensures Run(Start({1, 2, 3, 4, 5}), actions) == Some(Displacing(f)) && OrderlyRun(Start({1, 2, 3, 4, 5}), actions)
  {
    var s, m, v := Start({1, 2, 3, 4, 5}), {1, 2, 3, 4, 5}, FileState({2}, {2}, {3, 4}, {});
    var lead := Lead(0, map[], map[f := {}]);
    assert Run(s, []) == Some(s);
    FiveMembers();
    PutApplies(m, 2, f, {3, 4});
    Extended(s, [], s, Put(2, f, {3, 4}), One(m, f, v));
    ArrivalsAreOrderly(s, [], Put(2, f, {3, 4}));
    actions := CopiesSettle(s, [] + [Put(2, f, {3, 4})], m, f, {3, 4}, {2});
    assert {2} + {3, 4} == {2, 3, 4};
    ZeroLeads(f);
    SettledLeadIsOrderly(s, actions, m, f, {2, 3, 4}, lead, Displacing(f));
    actions := actions + [lead];
  }

  lemma SettledLeadIsOrderly(s: Store, actions: seq<Action>, members: Members, f: string, held: Members, a: Action,
      t: Store)
    requires Run(s, actions) == Some(One(members, f, FileState(held, held, {}, {}))) && OrderlyRun(s, actions)
    requires a.Lead? && Apply(One(members, f, FileState(held, held, {}, {})), a) == Some(t)
    ensures Run(s, actions + [a]) == Some(t) && OrderlyRun(s, actions + [a])
  {
    Extended(s, actions, One(members, f, FileState(held, held, {}, {})), a, t);
    assert (actions + [a])[..|actions + [a]| - 1] == actions;
  }

  lemma FiveMembers()
    ensures |{1, 2, 3, 4, 5}| == 5 && |{3, 4}| == 2 && {1, 2, 3, 4, 5} + {0} == {0, 1, 2, 3, 4, 5}
    ensures |{0, 1, 2, 3, 4, 5}| == 6 && {0, 1, 2, 3, 4, 5} - {4} == {0, 1, 2, 3, 5}
    ensures |{0, 1, 2, 3, 5}| == 5 && |{2, 3, 4}| == 3 && {2, 3, 4} - {4} == {2, 3} && |{2, 3}| == 2
  {
  }

  lemma ZeroLeads(f: string)
    ensures Apply(One({1, 2, 3, 4, 5}, f, FileState({2, 3, 4}, {2, 3, 4}, {}, {})), Lead(0, map[], map[f := {}]))
         == Some(Displacing(f))
  {
    FiveMembers();
    SmallestLeads({1, 2, 3, 4, 5}, f, {2, 3, 4}, 1, 0);
  }

  /** j joins under the master b; the file has all its replicas. */
  lemma SmallestLeads(members: Members, f: string, held: Members, b: nat, j: nat)
    requires IsMaster(members, b) && j < b && held != {} && |held| == Wanted(members + {j})
    ensures Apply(One(members, f, FileState(held, held, {}, {})), Lead(j, map[], map[f := {}]))
         == Some(Store(members + {j}, map[f := FileState(held, held, {}, {})], map[b := map[f := held]]))
  {
    var v := FileState(held, held, {}, {});
    var s := One(members, f, v);
    OnlyOneIsDisplaced(s, b);
    assert IndexOf(s.files) == map[f := held];
    assert Listed(v, {}) == v;
    var t := Store(members + {j}, map[f := v], map[b := map[f := held]]);
    assert Relisted(Led(s, j), map[]) == t;
    NothingIsMissing(t, f, held);
    assert j !in members && IsMaster(members + {j}, j);
  }

  lemma NothingIsMissing(t: Store, f: string, held: Members)
    requires t.files == map[f := FileState(held, held, {}, {})] && held != {} && |held| == Wanted(t.members)
    ensures Refilled(t, map[f := {}]) == Some(t)
  {
    var v := FileState(held, held, {}, {});
    assert Choice(t.members, held, {});
    assert v.(copies := v.copies + {}) == v;
    assert Commanded(t.files, map[f := {}]) == t.files;
  }

  lemma OnlyOneIsDisplaced(s: Store, b: nat)
    requires IsMaster(s.members, b) && s.former == map[]
    ensures Displaced(s) == map[b := IndexOf(s.files)]
  {
    forall k | k in s.members && IsMaster(s.members, k) ensures k == b {
      assert k <= b && b <= k;
    }
  }

  /** The failure of 4 is orderly but for the former master, and both could send their command to 2. */
  lemma FailureIsNotQuiet(f: string)
    ensures Settled(Displacing(f)) && Apply(Displacing(f), Fail(4, map[f := {0}])).Some?
    ensures !FormersQuiet(Displacing(f), 4)
    ensures Choice({0, 1, 2, 3, 5}, {2, 3}, {0}) && Choice({0, 1, 2, 3, 5}, {2, 3}, {5})
  {
    FiveMembers();
    HolderFails(Displacing(f), f, {2, 3, 4}, 1, 4, 0, {0});
  }

  lemma HolderFails(s: Store, f: string, held: Members, b: nat, m: nat, master: nat, targets: Members)
    requires s.files == map[f := FileState(held, held, {}, {})] && s.former == map[b := map[f := held]] && b != m
    requires m in s.members && master in s.members && master < m && held - {m} != {}
    requires |held - {m}| != Wanted(s.members - {m}) && Choice(s.members - {m}, held - {m}, targets)
    ensures Apply(s, Fail(m, map[f := targets])).Some? && !FormersQuiet(s, m)
  {
    assert !IsMaster(s.members, m);
    assert Without(s, m).files == map[f := Dropped(s.files[f], m)];
    assert f in s.former[b] && b in s.former;
    assert !QuietIndex(s.former[b], s.members - {m}, m);
  }

  /** The round after both have sent: 2 is silent, and both wait for ever. */
  function Blocked(f: string): Round {
    Round(0, map[0 := [Cmd(f, 2, {0})], 1 := [Cmd(f, 2, {5})]], {2}, {0, 1}, [])
  }

  /** If the former master is first, it is refused, 2 answers nobody any more, and the master waits for
      it for ever. */
  lemma FormerMasterGoesFirst(f: string)
    ensures var queues := map[0 := [Cmd(f, 2, {0})], 1 := [Cmd(f, 2, {5})]];
      && !CarriedOut(Round(0, queues, {}, {}, []))
      && Sends(Round(0, queues, {}, {}, []), [1, 0]) == Some(Blocked(f))
  {
    var queues := map[0 := [Cmd(f, 2, {0})], 1 := [Cmd(f, 2, {5})]];
    var r := Round(0, queues, {}, {}, []);
    var r1, r2 := Round(0, queues, {2}, {1}, []), Round(0, queues, {2}, {0, 1}, []);
    assert queues[1][0].source in Involved(queues[0]);
    assert Meets(r, 1);
    CarriedOutExactly(r);
    assert {} + {2} == {2} && {} + {1} == {1} && {1} + {0} == {0, 1};
    assert Send(r, 1) == Some(r1) && Send(r1, 0) == Some(r2);
    assert [1, 0][1..] == [0] && [0][1..] == [];
    assert Sends(r1, [0]) == Sends(r2, []);
  }

  /** Whatever is sent after that, the command stays unsent, so the store gets no copy from it: the file
      stays at two holders of a group of five, with nothing under way. */
  lemma FileStaysShort(f: string, senders: seq<nat>)
    requires Sends(Blocked(f), senders).Some?
    ensures var r := Sends(Blocked(f), senders).value;
      && 0 in r.queues && r.queues[0] == [Cmd(f, 2, {0})]
      && var v := At(After(Without(Displacing(f), 4), r.done), f);
         SettledFile(v) && v.index == v.local == {2, 3} && !FileFull({0, 1, 2, 3, 5}, v)
  {
    BlockedForEver(Blocked(f), 0, senders);
    FiveMembers();
    assert Dropped(Displacing(f).files[f], 4) == FileState({2, 3}, {2, 3}, {}, {});
    assert Fetching([], f) == {};
    assert Committed(FileState({2, 3}, {2, 3}, {}, {})) == {2, 3};
  }
}
