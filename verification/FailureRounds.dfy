/** From the failure of a member to the store after it: every node that has an index replicates with
    it, and the commands race.  When does the master get everything done, whatever is drawn and
    whoever is first? */
module FailureRounds {
  import opened Collections
  import opened Options
  import opened Text
  import opened Addresses
  import opened Commands
  import opened IndexQueues
  import opened MasterCode
  import F = FormerMasters
  import R = Replication
  import T = ReplicationTheorems

  // ---- the round after a failure ----

  /** What b replicates with, once the failed member has been cleared. */
  function IndexAt(t: R.Store, leader: nat, b: nat): R.Index {
    if b == leader then R.IndexOf(t.files) else if b in t.former then t.former[b] else map[]
  }

  /** t is the store without the failed member, `leader` its master, `members` its membership list, and
      `names` all names that any index lists, in their order. */
  ghost predicate Handled(t: R.Store, leader: nat, members: seq<nat>, names: seq<string>) {
    && R.IsMaster(t.members, leader) && t.members == AsSet(members)
    && |AsSet(members)| == |members| && 2 * |members| < INT_RANGE
    && Ascending(names) && NoDuplicates(names) && forall b, f :: f in IndexAt(t, leader, b) ==> f in names
  }

  /** All indexes list members only, as they do in every run. */
  ghost predicate Ready(t: R.Store, leader: nat, members: seq<nat>, names: seq<string>) {
    Handled(t, leader, members, names) && F.FormersOk(t) && F.Within(t)
  }

  lemma ReadyFits(t: R.Store, leader: nat, members: seq<nat>, names: seq<string>, b: nat)
    requires Ready(t, leader, members, names)
    ensures Fits(IndexAt(t, leader, b), members)
  {
    assert leader in AsSet(members);
    if b == leader {
      forall f | f in t.files ensures t.files[f].index <= t.members {
        assert t.files[f].index <= T.Trace(t.files[f]);
      }
    }
  }

  ghost function OutcomesAt(t: R.Store, leader: nat, members: seq<nat>, names: seq<string>,
      draws: nat -> string -> seq<nat>, b: nat): map<string, Outcome>
    requires Ready(t, leader, members, names)
  {
    ReadyFits(t, leader, members, names, b);
    Outcomes(IndexAt(t, leader, b), members, draws(b))
  }

  ghost predicate FairAt(t: R.Store, leader: nat, members: seq<nat>, names: seq<string>,
      draws: nat -> string -> seq<nat>, b: nat)
    requires Ready(t, leader, members, names)
  {
    ReadyFits(t, leader, members, names, b);
    Fair(IndexAt(t, leader, b), members, draws(b))
  }

  ghost function RoundOf(t: R.Store, leader: nat, members: seq<nat>, names: seq<string>,
      draws: nat -> string -> seq<nat>): Round
    requires Ready(t, leader, members, names)
  {
    Round(leader,
          map b | b in t.former.Keys + {leader} :: QueueOf(names, OutcomesAt(t, leader, members, names, draws, b)),
          {}, {}, [])
  }

  /** Whatever is drawn, and whoever sends first, the master's sampling ends and its commands are all
      carried out. */
  ghost predicate CertainlyRestored(t: R.Store, leader: nat, members: seq<nat>, names: seq<string>)
    requires Ready(t, leader, members, names)
  {
    forall draws: nat -> string -> seq<nat> :: (forall b :: FairAt(t, leader, members, names, draws, b)) ==>
      && AllEnded(OutcomesAt(t, leader, members, names, draws, leader))
      && CarriedOut(RoundOf(t, leader, members, names, draws))
  }

  lemma FormersAreOthers(t: R.Store, leader: nat, members: seq<nat>, names: seq<string>, b: nat)
    requires Ready(t, leader, members, names) && b in t.former
    ensures b != leader
  {
  }

  /** The queue of b is empty unless its index starts short. */
  lemma QueueAt(t: R.Store, leader: nat, members: seq<nat>, names: seq<string>,
      draws: nat -> string -> seq<nat>, b: nat)
    requires Ready(t, leader, members, names) && FairAt(t, leader, members, names, draws, b)
    ensures QueueOf(names, OutcomesAt(t, leader, members, names, draws, b)) != [] <==>
            StartsShort(IndexAt(t, leader, b), t.members)
  {
    ReadyFits(t, leader, members, names, b);
    QueueExactly(IndexAt(t, leader, b), members, draws(b), names);
  }

  lemma RestoredIf(t: R.Store, leader: nat, members: seq<nat>, names: seq<string>, draws: nat -> string -> seq<nat>)
    requires Ready(t, leader, members, names) && forall b :: FairAt(t, leader, members, names, draws, b)
    requires NothingLacks(IndexAt(t, leader, leader), t.members)
          || forall b :: b in t.former ==> !StartsShort(t.former[b], t.members)
    ensures CarriedOut(RoundOf(t, leader, members, names, draws))
  {
    var r := RoundOf(t, leader, members, names, draws);
    QueueAt(t, leader, members, names, draws, leader);
    assert Involved([]) == {};
    forall b ensures !Meets(r, b) {
      if b in t.former {
        QueueAt(t, leader, members, names, draws, b);
      }
    }
    CarriedOutExactly(r);
  }

  lemma AllEndedIf(t: R.Store, leader: nat, members: seq<nat>, names: seq<string>, draws: nat -> string -> seq<nat>)
    requires Ready(t, leader, members, names) && FairAt(t, leader, members, names, draws, leader)
    ensures AllEnded(OutcomesAt(t, leader, members, names, draws, leader)) <==>
            NoSurplus(IndexAt(t, leader, leader), t.members)
  {
    var index := IndexAt(t, leader, leader);
    ReadyFits(t, leader, members, names, leader);
    forall f | f in index && index[f] != {}
      ensures OutcomesAt(t, leader, members, names, draws, leader)[f].Unfinished? <==> Surplus(index, t.members, f)
    {
      OutcomeOf(index, members, draws(leader), f);
    }
  }

  ghost function AllDraws(t: R.Store, leader: nat, members: seq<nat>, names: seq<string>, c: nat)
    : nat -> string -> seq<nat>
    requires Ready(t, leader, members, names) && c in members
  {
    (b: nat) => (f: string) => DrawsAt(t, leader, members, names, c, b, f)
  }

  ghost function DrawsAt(t: R.Store, leader: nat, members: seq<nat>, names: seq<string>, c: nat, b: nat, f: string)
    : seq<nat>
    requires Ready(t, leader, members, names) && c in members
  {
    ReadyFits(t, leader, members, names, b);
    DrawsFor(IndexAt(t, leader, b), members, c, f)
  }

  /** With these draws every file that lacks replicas is commanded, and c takes part in it. */
  lemma AllInvolve(t: R.Store, leader: nat, members: seq<nat>, names: seq<string>, c: nat, b: nat)
    requires Ready(t, leader, members, names) && c in members
    ensures var draws := AllDraws(t, leader, members, names, c);
      && FairAt(t, leader, members, names, draws, b)
      && forall f :: Fewer(IndexAt(t, leader, b), t.members, f) ==>
           var r := OutcomesAt(t, leader, members, names, draws, b)[f];
           r.Command? && (if c in IndexAt(t, leader, b)[f] then r.source == c else c in r.targets)
  {
    ReadyFits(t, leader, members, names, b);
    var index := IndexAt(t, leader, b);
    forall f | Fewer(index, t.members, f)
      ensures Involves(members, index[f], c, DrawsFor(index, members, c, f))
    {
      FitsCount(index, members, f);
    }
  }

  /** Where a queue starts, independently of the draws. */
  lemma StartOf(t: R.Store, leader: nat, members: seq<nat>, names: seq<string>, b: nat) returns (k: nat)
    requires Ready(t, leader, members, names) && StartsShort(IndexAt(t, leader, b), t.members)
    ensures k < |names| && Fewer(IndexAt(t, leader, b), t.members, names[k])
    ensures forall draws :: FairAt(t, leader, members, names, draws, b) ==>
      var outcomes := OutcomesAt(t, leader, members, names, draws, b);
      && QueueOf(names, outcomes) != [] && names[k] in outcomes && outcomes[names[k]].Command?
      && QueueOf(names, outcomes)[0] == Cmd(names[k], outcomes[names[k]].source, outcomes[names[k]].targets)
  {
    ReadyFits(t, leader, members, names, b);
    var index := IndexAt(t, leader, b);
    var f :| ShortFirst(index, t.members, f);
    assert f in IndexAt(t, leader, b) && f in names;
    var p :| 0 <= p < |names| && names[p] == f;
    k := FirstOf(index, members, (f: string) => [], names, p);
    forall draws | FairAt(t, leader, members, names, draws, b)
      ensures Heads(QueueOf(names, OutcomesAt(t, leader, members, names, draws, b)), names[k], index, members, draws(b))
    {
      QueueStarts(index, members, draws(b), names);
      assert StartsAt(index, members, draws(b), names, k);
    }
  }

  /** If the master lacks replicas and a former master would command something, the former master's
      command can go to a member that the master needs. */
  lemma TheyCanMeet(t: R.Store, leader: nat, members: seq<nat>, names: seq<string>, b: nat)
    returns (draws: nat -> string -> seq<nat>)
    requires Ready(t, leader, members, names) && b in t.former && StartsShort(t.former[b], t.members)
    requires StartsShort(IndexAt(t, leader, leader), t.members)
    ensures forall d :: FairAt(t, leader, members, names, draws, d)
    ensures !CarriedOut(RoundOf(t, leader, members, names, draws))
  {
    FormersAreOthers(t, leader, members, names, b);
    var k := StartOf(t, leader, members, names, b);
    var j := StartOf(t, leader, members, names, leader);
    var c :| c in t.former[b][names[k]];
    assert c in AsSet(members);
    draws := AllDraws(t, leader, members, names, c);
    forall d ensures FairAt(t, leader, members, names, draws, d) {
      AllInvolve(t, leader, members, names, c, d);
    }
    AllInvolve(t, leader, members, names, c, b);
    AllInvolve(t, leader, members, names, c, leader);
    var r := RoundOf(t, leader, members, names, draws);
    assert r.queues[b][0].source == c;
    assert c in Involved(r.queues[leader]);
    assert Meets(r, b);
    CarriedOutExactly(r);
  }

  lemma LackStartsShort(index: R.Index, left: R.Members)
    requires NoSurplus(index, left) && !NothingLacks(index, left)
    ensures StartsShort(index, left)
  {
    var f :| Fewer(index, left, f);
    assert ShortFirst(index, left, f);
  }

  /** The master restores everything for sure if and only if it has no surplus, over which its sampling
      would not end, and either it lacks nothing or no former master commands anything. */
  lemma RestoredExactly(t: R.Store, leader: nat, members: seq<nat>, names: seq<string>)
    requires Ready(t, leader, members, names)
    ensures CertainlyRestored(t, leader, members, names) <==>
      var index := R.IndexOf(t.files);
      && NoSurplus(index, t.members)
      && (NothingLacks(index, t.members) || forall b :: b in t.former ==> !StartsShort(t.former[b], t.members))
  {
    var index := R.IndexOf(t.files);
    assert leader in members;
    if CertainlyRestored(t, leader, members, names) {
      var some := AllDraws(t, leader, members, names, leader);
      forall d ensures FairAt(t, leader, members, names, some, d) {
        AllInvolve(t, leader, members, names, leader, d);
      }
      AllEndedIf(t, leader, members, names, some);
      if !NothingLacks(index, t.members) {
        LackStartsShort(index, t.members);
        if b :| b in t.former && StartsShort(t.former[b], t.members) {
          var draws := TheyCanMeet(t, leader, members, names, b);
          assert false;
        }
      }
    }
    if NoSurplus(index, t.members)
       && (NothingLacks(index, t.members) || forall b :: b in t.former ==> !StartsShort(t.former[b], t.members)) {
      forall draws: nat -> string -> seq<nat> | forall b :: FairAt(t, leader, members, names, draws, b)
        ensures AllEnded(OutcomesAt(t, leader, members, names, draws, leader))
        ensures CarriedOut(RoundOf(t, leader, members, names, draws))
      {
        AllEndedIf(t, leader, members, names, draws);
        RestoredIf(t, leader, members, names, draws);
      }
    }
  }

  // ---- on the store ----

  /** The members that the carried out commands have made fetch the file. */
  function Fetching(done: seq<Cmd>, f: string): set<nat> {
    if done == [] then {} else (if done[0].f == f then done[0].targets else {}) + Fetching(done[1..], f)
  }

  /** The store after these commands have been carried out. */
  function After(t: R.Store, done: seq<Cmd>): R.Store {
    t.(files := map f | f in t.files :: t.files[f].(copies := t.files[f].copies + Fetching(done, f)))
  }

  lemma RestIsDistinct(names: seq<string>)
    requires NoDuplicates(names) && names != []
    ensures NoDuplicates(names[1..]) && names[0] !in names[1..]
  {
    forall i | 0 <= i < |names| - 1 ensures names[1..][i] != names[0] {
      assert names[1..][i] == names[i + 1];
    }
  }

  lemma {:induction false} AllFetching(names: seq<string>, outcomes: map<string, Outcome>, f: string)
    requires NoDuplicates(names) && AllEnded(outcomes)
    ensures Fetching(QueueOf(names, outcomes), f) ==
            if f in names && f in outcomes then TargetsOf(outcomes[f]) else {}
    decreases |names|
  {
    if names != [] {
      var rest := names[1..];
      RestIsDistinct(names);
      AllFetching(rest, outcomes, f);
      assert names == [names[0]] + rest;
      if names[0] in outcomes && outcomes[names[0]].Command? {
        var c := Cmd(names[0], outcomes[names[0]].source, outcomes[names[0]].targets);
        assert ([c] + QueueOf(rest, outcomes))[1..] == QueueOf(rest, outcomes);
      }
    }
  }

  /** The failure of m is handled in the group that is left. */
  ghost predicate Failure(s: R.Store, m: nat, leader: nat, members: seq<nat>, names: seq<string>) {
    && m in s.members && !R.IsMaster(s.members, m) && F.FormersOk(s) && F.Within(s)
    && Handled(R.Without(s, m), leader, members, names)
  }

  lemma FailureIsReady(s: R.Store, m: nat, leader: nat, members: seq<nat>, names: seq<string>)
    requires Failure(s, m, leader, members, names)
    ensures Ready(R.Without(s, m), leader, members, names)
  {
    var t := R.Without(s, m);
    F.RemainingOk(s, m);
    forall f | f in t.files ensures T.Trace(t.files[f]) <= t.members {
      F.DroppedWithin(s.members, s.files[f], m);
    }
  }

  ghost predicate Restores(s: R.Store, m: nat, leader: nat, members: seq<nat>, names: seq<string>)
    requires Failure(s, m, leader, members, names)
  {
    FailureIsReady(s, m, leader, members, names);
    CertainlyRestored(R.Without(s, m), leader, members, names)
  }

  /** Before anything is drawn or sent: the failure of m is repaired for sure if and only if the master
      has a surplus of no file and, unless it lacks nothing, no former master's first file that has
      not just the replicas it should have has fewer. */
  lemma FailureRestoredExactly(s: R.Store, m: nat, leader: nat, members: seq<nat>, names: seq<string>)
    requires Failure(s, m, leader, members, names)
    ensures Restores(s, m, leader, members, names) <==>
      var left := s.members - {m};
      var index := R.Cleared(R.IndexOf(s.files), m);
      && NoSurplus(index, left)
      && (NothingLacks(index, left)
          || forall b :: b in s.former && b != m ==> !StartsShort(R.Cleared(s.former[b], m), left))
  {
    var t := R.Without(s, m);
    FailureIsReady(s, m, leader, members, names);
    assert R.IndexOf(t.files) == R.Cleared(R.IndexOf(s.files), m);
    FormersLeft(s, m);
    RestoredExactly(t, leader, members, names);
  }

  lemma FormersLeft(s: R.Store, m: nat)
    requires F.FormersOk(s) && m in s.members && !R.IsMaster(s.members, m)
    ensures var t := R.Without(s, m);
      && (forall b :: b in t.former <==> b in s.former && b != m)
      && forall b :: b in t.former ==> t.former[b] == R.Cleared(s.former[b], m)
  {
    forall b | b in s.former && b != m ensures !R.IsMaster(s.members - {m}, b) {
      var master := F.Smallest(s.members);
      assert master in s.members - {m} && master < b;
    }
  }

  /** What orderly runs ask for is enough. */
  lemma QuietSuffices(s: R.Store, m: nat, b: nat)
    requires R.FormersQuiet(s, m) && b in s.former && b != m
    ensures !StartsShort(R.Cleared(s.former[b], m), s.members - {m})
  {
    var index := R.Cleared(s.former[b], m);
    assert R.QuietIndex(s.former[b], s.members - {m}, m);
    forall f ensures !Fewer(index, s.members - {m}, f) {
      assert f in index ==> index[f] == s.former[b][f] - {m};
    }
  }

  /** And when the master's commands have all been carried out, the store is that of the failure step
      with these commands as the plan. */
  lemma RestoredStore(s: R.Store, m: nat, leader: nat, members: seq<nat>, names: seq<string>,
      draws: nat -> string -> seq<nat>, senders: seq<nat>)
    requires Failure(s, m, leader, members, names) && Ready(R.Without(s, m), leader, members, names)
    requires AllEnded(OutcomesAt(R.Without(s, m), leader, members, names, draws, leader))
    requires var r := RoundOf(R.Without(s, m), leader, members, names, draws);
      CarriedOut(r) && Sends(r, senders).Some? && Send(Sends(r, senders).value, leader).None?
    ensures var t := R.Without(s, m);
      var plan := PlanOf(OutcomesAt(t, leader, members, names, draws, leader));
      R.Apply(s, R.Fail(m, plan)) ==
        Some(After(t, Sends(RoundOf(t, leader, members, names, draws), senders).value.done))
  {
    var t := R.Without(s, m);
    var r, outcomes := RoundOf(t, leader, members, names, draws), OutcomesAt(t, leader, members, names, draws, leader);
    assert Sends(r, senders).value.done == r.queues[leader] by {
      CarriedOutExactly(r);
      NothingIsSkipped(r, senders);
      EverythingIsDone(r, senders);
    }
    PlanIsPlanned(t, leader, members, names, draws);
    NamesCover(t, leader, members, names, draws);
    AfterAll(t, names, outcomes);
  }

  lemma NamesCover(t: R.Store, leader: nat, members: seq<nat>, names: seq<string>, draws: nat -> string -> seq<nat>)
    requires Ready(t, leader, members, names)
    ensures forall f :: f in OutcomesAt(t, leader, members, names, draws, leader) ==> f in names
  {
    forall f | f in OutcomesAt(t, leader, members, names, draws, leader) ensures f in names {
      assert f in IndexAt(t, leader, leader);
    }
  }

  lemma AfterAll(t: R.Store, names: seq<string>, outcomes: map<string, Outcome>)
    requires NoDuplicates(names) && AllEnded(outcomes) && forall f :: f in outcomes ==> f in names
    ensures After(t, QueueOf(names, outcomes)) == t.(files := R.Commanded(t.files, PlanOf(outcomes)))
  {
    forall f | f in t.files
      ensures After(t, QueueOf(names, outcomes)).files[f] == R.Commanded(t.files, PlanOf(outcomes))[f]
    {
      AllFetching(names, outcomes, f);
      assert t.files[f].copies + {} == t.files[f].copies;
    }
  }

  lemma PlanIsPlanned(t: R.Store, leader: nat, members: seq<nat>, names: seq<string>,
      draws: nat -> string -> seq<nat>)
    requires Ready(t, leader, members, names)
    requires AllEnded(OutcomesAt(t, leader, members, names, draws, leader))
    ensures R.Planned(t.members, t.files, PlanOf(OutcomesAt(t, leader, members, names, draws, leader)))
  {
    var index := IndexAt(t, leader, leader);
    ReadyFits(t, leader, members, names, leader);
    forall f | f in index ensures |members| + |index[f]| < INT_RANGE {
      FitsCount(index, members, f);
    }
    OutcomesArePlanned(t.files, members, draws(leader), OutcomesAt(t, leader, members, names, draws, leader));
  }
}
