/** The replicated file store: the master's index, the members' local stores, and the copies and
    reports on their way between them.  Everything is kept per file, as sets of members. */
module Replication {
  import opened Collections
  import opened Options

  const MAX_REPLICATE := 3

  type Members = set<nat>

  /** One file: the members that hold it according to the master's index and according to
      themselves, the members that have been commanded to fetch it, and those whose report of
      having fetched it has not reached the master. */
  datatype FileState = FileState(index: Members, local: Members, copies: Members, updates: Members)

  const NOWHERE := FileState({}, {}, {}, {})

  /** What a master believes: for every file, who holds it. */
  type Index = map<string, Members>

  /** `former` are the members that were master until somebody with a smaller id joined, with the
      index each was left with. */
  datatype Store = Store(members: Members, files: map<string, FileState>, former: map<nat, Index>)

  function At(s: Store, f: string): FileState {
    if f in s.files then s.files[f] else NOWHERE
  }

  /** Three, or everybody in a smaller group. */
  function Wanted(members: Members): (w: nat)
    ensures w <= 3 && w <= |members| && (w == 3 || w == |members|)
  {
    if |members| < MAX_REPLICATE then |members| else MAX_REPLICATE
  }

  /** What replicateFile may draw: as many members without the file, according to the index, as
      are missing.  If too many hold it, no set qualifies and the sampling loop does not end. */
  predicate Choice(members: Members, index: Members, targets: Members) {
    targets <= members - index && |targets| == Wanted(members) - |index|
  }

  // ---- one file ----

  function Stored(v: FileState, r: nat, targets: Members): FileState {
    FileState(v.index + {r}, v.local + {r}, v.copies + targets, v.updates)
  }

  /** A copy arrives.  A member that holds the file already refuses it when it is offered, and reports
      nothing.  A member that is asked twice before it has finished fetches twice and reports twice;
      the two fetches are one element of `copies` here, which matters in disorderly runs only. */
  function Finished(v: FileState, m: nat): FileState {
    if m in v.local then v.(copies := v.copies - {m})
    else FileState(v.index, v.local + {m}, v.copies - {m}, v.updates + {m})
  }

  /** A copy that is refused changes nothing but that it is no longer under way. */
  lemma RefusedCopy(v: FileState, m: nat)
    requires m in v.local && m in v.copies
    ensures Finished(v, m).(copies := v.copies) == v && Finished(v, m).copies + {m} == v.copies
    ensures m !in Finished(v, m).copies
  {
  }

  function Reported(v: FileState, m: nat): FileState {
    v.(index := v.index + {m}, updates := v.updates - {m})
  }

  function Deleted(v: FileState, members: Members): FileState {
    v.(index := v.index - members, local := v.local - v.index * members)
  }

  function Dropped(v: FileState, m: nat): FileState {
    FileState(v.index - {m}, v.local - {m}, v.copies - {m}, v.updates - {m})
  }

  /** A new master lists the local stores; some reports to the old one are lost. */
  function Listed(v: FileState, lost: Members): FileState {
    v.(index := v.local, updates := v.updates - lost)
  }

  // ---- the whole store ----

  /** Targets for every file of the index. */
  type Plan = map<string, Members>

  datatype Action =
    | Put(r: nat, f: string, targets: Members)  // a whole PUT exchange of member r
    | Finish(m: nat, f: string)                 // a commanded copy arrives at m
    | Report(m: nat, f: string)                 // its UPDATE arrives at the master
    | Del(f: string)
    | Fail(m: nat, plan: Plan)                  // a member other than the master fails
    | Takeover(m: nat, lost: Plan, plan: Plan)  // the master fails; a new one lists and replicates
    | Join(m: nat)                              // a member joins and the master stays
    | Lead(m: nat, lost: Plan, plan: Plan)      // a member joins, becomes master, lists and replicates

  /** Elections settle on the smallest id. */
  predicate IsMaster(members: Members, m: nat) { m in members && forall k :: k in members ==> m <= k }

  /** The steps after which the master replicates every file again. */
  predicate Refills(a: Action) { a.Fail? || a.Takeover? || a.Lead? }

  function MembersAfter(members: Members, a: Action): Members {
    match a
    case Fail(m, _) => members - {m}
    case Takeover(m, _, _) => members - {m}
    case Join(m) => members + {m}
    case Lead(m, _, _) => members + {m}
    case _ => members
  }

  predicate Planned(members: Members, files: map<string, FileState>, plan: Plan) {
    && (forall f :: f in plan ==> f in files)
    && forall f :: f in files ==>
         if files[f].index == {} then f !in plan else f in plan && Choice(members, files[f].index, plan[f])
  }

  function Commanded(files: map<string, FileState>, plan: Plan): map<string, FileState> {
    map f | f in files :: if f in plan then files[f].(copies := files[f].copies + plan[f]) else files[f]
  }

  // ---- former masters ----

  /** The failure of a member clears its entry of every index. */
  function Cleared(index: Index, m: nat): Index { map f | f in index :: index[f] - {m} }

  /** The former masters among those that are left. */
  function Remaining(former: map<nat, Index>, left: Members, m: nat): map<nat, Index> {
    map b | b in former && b != m && !IsMaster(left, b) :: Cleared(former[b], m)
  }

  function IndexOf(files: map<string, FileState>): Index { map f | f in files :: files[f].index }

  /** The master is displaced; nothing brings its index up to date from here on. */
  function Displaced(s: Store): map<nat, Index> {
    map b | b in s.members && (b in s.former || IsMaster(s.members, b)) ::
      if IsMaster(s.members, b) then IndexOf(s.files) else s.former[b]
  }

  /** Handling the failure of m with this index commands nothing: every file that it still lists has
      as many holders as it should have in the group that is left. */
  predicate QuietIndex(index: Index, left: Members, m: nat) {
    forall f :: f in index && index[f] - {m} != {} ==> |index[f] - {m}| == Wanted(left)
  }

  /** The failure of m makes no former master command anything. */
  predicate FormersQuiet(s: Store, m: nat) {
    forall b :: b in s.former && b != m ==> QuietIndex(s.former[b], s.members - {m}, m)
  }

  // ---- steps ----

  function Without(s: Store, m: nat): Store {
    var left := s.members - {m};
    Store(left, map f | f in s.files :: Dropped(s.files[f], m), Remaining(s.former, left, m))
  }

  function Led(s: Store, m: nat): Store { Store(s.members + {m}, s.files, Displaced(s)) }

  function Relisted(s: Store, lost: Plan): Store {
    s.(files := map f | f in s.files :: Listed(s.files[f], if f in lost then lost[f] else {}))
  }

  /** The master replicates every file again. */
  function Refilled(t: Store, plan: Plan): Option<Store> {
    if Planned(t.members, t.files, plan) then Some(t.(files := Commanded(t.files, plan))) else None
  }

  function Apply(s: Store, a: Action): Option<Store> {
    match a
    case Put(r, f, targets) =>
      if r !in s.members then None
      else if At(s, f).index != {} then Some(s)
      else if !Choice(s.members, {r}, targets) then None
      else Some(s.(files := s.files[f := Stored(At(s, f), r, targets)]))
    case Finish(m, f) =>
      if m in At(s, f).copies then Some(s.(files := s.files[f := Finished(At(s, f), m)])) else None
    case Report(m, f) =>
      if m in At(s, f).updates then Some(s.(files := s.files[f := Reported(At(s, f), m)])) else None
    case Del(f) =>
      if At(s, f).index == {} then Some(s)
      else Some(s.(files := s.files[f := Deleted(At(s, f), s.members)]))
    case Fail(m, plan) =>
      if m in s.members && !IsMaster(s.members, m) then Refilled(Without(s, m), plan) else None
    case Takeover(m, lost, plan) =>
      if IsMaster(s.members, m) then Refilled(Relisted(Without(s, m), lost), plan) else None
    case Join(m) =>
      if m in s.members || IsMaster(s.members + {m}, m) then None
      else Some(s.(members := s.members + {m}))
    case Lead(m, lost, plan) =>
      if m !in s.members && IsMaster(s.members + {m}, m) then Refilled(Relisted(Led(s, m), lost), plan) else None
  }

  // ---- agreement ----

  /** The index agrees with the local stores up to reports under way, which are true, and only
      members hold or fetch anything. */
  predicate Agrees(members: Members, v: FileState) {
    v.local == v.index + v.updates && v.local <= members && v.copies <= members
  }

  // ---- the invariant ----

  /** Where a file is or is going to be. */
  function Committed(v: FileState): Members { v.local + v.copies }

  /** The index agrees with the local stores up to reports under way; a file that is anywhere is in
      the index; and nobody has asked for too many copies of it. */
  predicate FileInv(members: Members, v: FileState) {
    && v.local == v.index + v.updates
    && v.copies !! v.local
    && Committed(v) <= members
    && (Committed(v) != {} ==> v.index != {})
    && |Committed(v)| <= Wanted(members)
  }

  /** The file has, or is about to have, as many replicas as it should. */
  predicate FileFull(members: Members, v: FileState) {
    Committed(v) != {} ==> |Committed(v)| == Wanted(members)
  }

  ghost predicate Inv(s: Store) { forall f :: FileInv(s.members, At(s, f)) }

  ghost predicate Full(s: Store) { forall f :: FileFull(s.members, At(s, f)) }

  predicate SettledFile(v: FileState) { v.copies == {} && v.updates == {} }

  predicate Settled(s: Store) { forall f :: f in s.files ==> SettledFile(s.files[f]) }

  predicate NoCopies(s: Store) { forall f :: f in s.files ==> s.files[f].copies == {} }

  /** What is asked of the surroundings: a file is deleted, and a member fails, only when nothing
      is under way; the leadership may move with reports under way, but no copies; and a failure
      makes no former master command anything. */
  predicate Orderly(s: Store, a: Action) {
    match a
    case Del(f) => SettledFile(At(s, f))
    case Fail(m, plan) => Settled(s) && FormersQuiet(s, m)
    case Takeover(m, lost, plan) => NoCopies(s) && FormersQuiet(s, m)
    case Lead(m, lost, plan) => NoCopies(s)
    case _ => true
  }

  // ---- one file at a time ----

  lemma WantedIsEnough(members: Members, holders: Members)
    requires holders <= members && |holders| <= MAX_REPLICATE
    ensures |holders| <= Wanted(members)
  {
    SubsetSize(holders, members);
  }

  lemma StoredIsFull(members: Members, v: FileState, r: nat, targets: Members)
    requires FileInv(members, v) && v.index == {} && r in members && Choice(members, {r}, targets)
    ensures FileInv(members, Stored(v, r, targets)) && |Committed(Stored(v, r, targets))| == Wanted(members)
  {
    assert Committed(v) == {};
    assert v.local == {} && v.copies == {};
    assert Committed(Stored(v, r, targets)) == targets + {r};
  }

  lemma FinishedKeeps(members: Members, v: FileState, m: nat)
    requires FileInv(members, v) && m in v.copies
    ensures FileInv(members, Finished(v, m)) && Committed(Finished(v, m)) == Committed(v)
  {
    assert Committed(Finished(v, m)) == Committed(v);
  }

  lemma ReportedKeeps(members: Members, v: FileState, m: nat)
    requires FileInv(members, v) && m in v.updates
    ensures FileInv(members, Reported(v, m)) && Committed(Reported(v, m)) == Committed(v)
  {
    assert m in v.local;
    assert Committed(Reported(v, m)) == Committed(v);
  }

  /** A deletion leaves nothing behind if and only if nothing was under way for the file. */
  lemma DeletedExactly(members: Members, v: FileState)
    requires FileInv(members, v)
    ensures Deleted(v, members) == NOWHERE <==> SettledFile(v)
  {
    assert v.index <= members;
  }

  /** Nothing is under way for the file but reports of what the index holds already. */
  predicate Fillable(members: Members, v: FileState) {
    v.local == v.index + v.updates && v.updates <= v.index && v.copies == {} && v.index <= members
  }

  /** After a failure, or a takeover, the new targets fill the file up again. */
  lemma CommandedIsFull(members: Members, v: FileState, targets: Members)
    requires Fillable(members, v)
    requires if v.index == {} then targets == {} else Choice(members, v.index, targets)
    ensures var w := v.(copies := v.copies + targets); FileInv(members, w) && FileFull(members, w)
  {
    assert v.local == v.index && v.copies + targets == targets;
    assert |v.index + targets| == |v.index| + |targets|;
  }

  /** There is always something to draw: the number of missing replicas is never negative, and as
      long as targets are missing some member is neither a holder nor a target. */
  lemma CandidateExists(members: Members, index: Members, targets: Members)
    requires index <= members && |index| <= MAX_REPLICATE && targets <= members - index
    ensures Wanted(members) - |index| >= 0
    ensures |targets| < Wanted(members) - |index| ==> exists m :: m in members && m !in index && m !in targets
  {
    WantedIsEnough(members, index);
    if |targets| < Wanted(members) - |index| {
      assert |index + targets| == |index| + |targets|;
      if members <= index + targets {
        SubsetSize(members, index + targets);
      }
      var m :| m in members && m !in index + targets;
    }
  }
}
