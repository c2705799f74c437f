/** Where the instances of a topology go: round robin over the supervisors. */
module Placement {
  import opened Collections
  import opened Text
  import opened Topology

  /** nextExecutor: the position served after `executor`, which may be unset or have left. */
  function NextPosition(supervisors: seq<string>, executor: string): (p: nat)
    requires supervisors != []
    ensures p < |supervisors|
  {
    if executor == "" then 0 else (Find(supervisors, executor) + 1) % |supervisors|
  }

  /** Nobody served yet: the first supervisor.  After one that is still there: the next, and after the
      last one the first again. */
  lemma NextPositionIs(supervisors: seq<string>, k: nat)
    requires NoDuplicates(supervisors) && k < |supervisors|
    ensures NextPosition(supervisors, "") == 0
    ensures supervisors[k] != "" ==>
      NextPosition(supervisors, supervisors[k]) == if k + 1 == |supervisors| then 0 else k + 1
  {
    FindDistinct(supervisors, k);
    Successor(|supervisors|, k);
  }

  /** After one that has left: the second, if there are two. */
  lemma NextAfterLeaver(supervisors: seq<string>, executor: string)
    requires supervisors != [] && executor != "" && executor !in supervisors
    ensures NextPosition(supervisors, executor) == if |supervisors| == 1 then 0 else 1
  {
    OneRoundOn(|supervisors|);
  }

  lemma OneRoundOn(n: nat)
    requires n > 0
    ensures (n + 1) % n == if n == 1 then 0 else 1
  {
    if n > 1 {
      assert n + 1 == n * 1 + 1;
    }
  }

  /** Position served by the k-th call after one that served q. */
  function Position(n: nat, q: nat, k: nat): (p: nat)
    requires q < n
    ensures p < n
  {
    if k == 0 then q else (Position(n, q, k - 1) + 1) % n
  }

  /** The positions go round: q + k is this position after a number of whole rounds. */
  lemma {:induction false} PositionIs(n: nat, q: nat, k: nat) returns (rounds: nat)
    requires q < n
    ensures q + k == rounds * n + Position(n, q, k)
    decreases k
  {
    rounds := 0;
    if k > 0 {
      rounds := PositionIs(n, q, k - 1);
      Successor(n, Position(n, q, k - 1));
      if Position(n, q, k) == 0 {
        OneRoundMore(rounds, n);
        rounds := rounds + 1;
      }
    }
  }

  lemma OneRoundMore(rounds: nat, n: nat)
    ensures (rounds + 1) * n == rounds * n + n
  {
  }

  /** How many of the first k calls have served position j. */
  function Load(n: nat, q: nat, j: nat, k: nat): nat
    requires q < n
  {
    if k == 0 then 0 else Load(n, q, j, k - 1) + if Position(n, q, k - 1) == j then 1 else 0
  }

  /** Steps from q forward to j. */
  function Steps(n: nat, q: nat, j: nat): nat
    requires q < n && j < n
  {
    if j >= q then j - q else j - q + n
  }

  lemma Successor(n: nat, p: nat)
    requires p < n
    ensures (p + 1) % n == if p + 1 == n then 0 else p + 1
  {
  }

  /** Whether the current round has already come to j, when it is t steps along. */
  function Passed(n: nat, q: nat, j: nat, t: nat): int
    requires q < n && j < n
  {
    if Steps(n, q, j) < t then 1 else 0
  }

  /** Serving p moves the round on by one step; at its end everybody has been passed. */
  lemma OneCall(n: nat, q: nat, p: nat, i: nat)
    requires q < n && p < n && i < n
    ensures var t, u := Steps(n, q, p), Steps(n, q, (p + 1) % n);
      Passed(n, q, i, u) - Passed(n, q, i, t) == (if p == i then 1 else 0) - (if u == 0 then 1 else 0)
  {
    Successor(n, p);
  }

  /** Two positions have served the same number of instances, except for the current round. */
  lemma {:induction false} LoadsByRound(n: nat, q: nat, k: nat, i: nat, j: nat)
    requires q < n && i < n && j < n
    ensures var t := Steps(n, q, Position(n, q, k));
      Load(n, q, i, k) - Load(n, q, j, k) == Passed(n, q, i, t) - Passed(n, q, j, t)
    decreases k
  {
    if k > 0 {
      LoadsByRound(n, q, k - 1, i, j);
      OneCall(n, q, Position(n, q, k - 1), i);
      OneCall(n, q, Position(n, q, k - 1), j);
    }
  }

  /** Placement is balanced: whoever was served last, and whether it is still there, after any
      number of calls two positions have served numbers of instances that differ by at most one. */
  lemma LoadsDifferByOne(supervisors: seq<string>, executor: string, k: nat, i: nat, j: nat)
    requires i < |supervisors| && j < |supervisors|
    ensures var q := NextPosition(supervisors, executor);
      -1 <= Load(|supervisors|, q, i, k) - Load(|supervisors|, q, j, k) <= 1
  {
    LoadsByRound(|supervisors|, NextPosition(supervisors, executor), k, i, j);
  }

  // ---- tasks ----

  function Repeat(name: string, times: int): seq<string>
    decreases times
  {
    if times <= 0 then [] else Repeat(name, times - 1) + [name]
  }

  function BoltTasks(bolts: seq<BoltSpec>): seq<string> {
    if bolts == [] then []
    else BoltTasks(bolts[..|bolts| - 1]) + Repeat(bolts[|bolts| - 1].name, bolts[|bolts| - 1].paraLevel)
  }

  function SpoutTasks(spouts: seq<SpoutSpec>): seq<string> {
    if spouts == [] then [] else SpoutTasks(spouts[..|spouts| - 1]) + [spouts[|spouts| - 1].name]
  }

  /** All instances to be started, in the order in which they are placed. */
  function Tasks(spec: TopologySpec): seq<string> {
    SpoutTasks(spec.spoutSpecs) + BoltTasks(spec.boltSpecs)
  }

  lemma {:induction false} RepeatIs(name: string, times: int, i: nat)
    ensures |Repeat(name, times)| == (if times > 0 then times else 0)
    ensures i < times ==> Repeat(name, times)[i] == name
    decreases times
  {
    if times > 0 {
      RepeatIs(name, times - 1, if i < times - 1 then i else 0);
      RepeatIs(name, times - 1, i);
    }
  }

  /** Spouts come first, one instance each, in the order of the specification... */
  lemma {:induction false} SpoutsFirst(spec: TopologySpec, i: nat)
    requires i < |spec.spoutSpecs|
    ensures |Tasks(spec)| >= |spec.spoutSpecs| && Tasks(spec)[i] == spec.spoutSpecs[i].name
  {
    SpoutTasksAre(spec.spoutSpecs, i);
  }

  lemma {:induction false} SpoutTasksAre(spouts: seq<SpoutSpec>, i: nat)
    ensures |SpoutTasks(spouts)| == |spouts|
    ensures i < |spouts| ==> SpoutTasks(spouts)[i] == spouts[i].name
  {
    if spouts != [] {
      SpoutTasksAre(spouts[..|spouts| - 1], i);
    }
  }

  /** ... then all instances of the first bolt, all of the second, and so on. */
  lemma BoltsInTurn(spec: TopologySpec)
    ensures |Tasks(spec)| >= |spec.spoutSpecs|
    ensures Tasks(spec)[|spec.spoutSpecs|..] == BoltTasks(spec.boltSpecs)
  {
    SpoutTasksAre(spec.spoutSpecs, 0);
  }

  lemma {:induction false} BoltTasksConcat(a: seq<BoltSpec>, b: seq<BoltSpec>)
    ensures BoltTasks(a + b) == BoltTasks(a) + BoltTasks(b)
  {
    if b == [] {
      assert a + b == a;
    } else {
      var s := a + b;
      assert s[..|s| - 1] == a + b[..|b| - 1] && s[|s| - 1] == b[|b| - 1];
      BoltTasksConcat(a, b[..|b| - 1]);
      Associative(BoltTasks(a), BoltTasks(b[..|b| - 1]), Repeat(b[|b| - 1].name, b[|b| - 1].paraLevel));
    }
  }

  lemma BoltTasksOfOne(b: BoltSpec, i: nat)
    ensures |BoltTasks([b])| == (if b.paraLevel > 0 then b.paraLevel else 0)
    ensures i < b.paraLevel ==> BoltTasks([b])[i] == b.name
  {
    assert [b][..0] == [];
    assert BoltTasks([b]) == Repeat(b.name, b.paraLevel);
    RepeatIs(b.name, b.paraLevel, i);
  }

  lemma {:induction false} RepeatCounted(name: string, times: int, x: string)
    ensures multiset(Repeat(name, times))[x] == if x == name && times > 0 then times else 0
    decreases times
  {
    if times > 0 {
      RepeatCounted(name, times - 1, x);
      CountOfConcat(Repeat(name, times - 1), [name], x);
    }
  }

  /** Instances wanted of bolts, and of spouts, called x. */
  function WantedBolts(bolts: seq<BoltSpec>, x: string): nat {
    if bolts == [] then 0
    else
      var b := bolts[|bolts| - 1];
      WantedBolts(bolts[..|bolts| - 1], x) + if b.name == x && b.paraLevel > 0 then b.paraLevel else 0
  }

  function WantedSpouts(spouts: seq<SpoutSpec>, x: string): nat {
    if spouts == [] then 0
    else WantedSpouts(spouts[..|spouts| - 1], x) + if spouts[|spouts| - 1].name == x then 1 else 0
  }

  lemma {:induction false} BoltTasksCounted(bolts: seq<BoltSpec>, x: string)
    ensures multiset(BoltTasks(bolts))[x] == WantedBolts(bolts, x)
  {
    if bolts != [] {
      var before, b := bolts[..|bolts| - 1], bolts[|bolts| - 1];
      BoltTasksCounted(before, x);
      RepeatCounted(b.name, b.paraLevel, x);
      CountOfConcat(BoltTasks(before), Repeat(b.name, b.paraLevel), x);
    }
  }

  lemma {:induction false} SpoutTasksCounted(spouts: seq<SpoutSpec>, x: string)
    ensures multiset(SpoutTasks(spouts))[x] == WantedSpouts(spouts, x)
  {
    if spouts != [] {
      SpoutTasksCounted(spouts[..|spouts| - 1], x);
      CountOfConcat(SpoutTasks(spouts[..|spouts| - 1]), [spouts[|spouts| - 1].name], x);
    }
  }

  /** A name is placed once for a spout and paraLevel times for a bolt. */
  lemma TasksCounted(spec: TopologySpec, x: string)
    ensures multiset(Tasks(spec))[x] == WantedSpouts(spec.spoutSpecs, x) + WantedBolts(spec.boltSpecs, x)
  {
    SpoutTasksCounted(spec.spoutSpecs, x);
    BoltTasksCounted(spec.boltSpecs, x);
    CountOfConcat(SpoutTasks(spec.spoutSpecs), BoltTasks(spec.boltSpecs), x);
  }

  // ---- assignment ----

  /** The tasks placed at position j when the first one goes to position q. */
  function AssignedTo(tasks: seq<string>, n: nat, q: nat, j: nat): multiset<string>
    requires q < n
  {
    if tasks == [] then multiset{}
    else
      var k := |tasks| - 1;
      AssignedTo(tasks[..k], n, q, j) + if Position(n, q, k) == j then multiset{tasks[k]} else multiset{}
  }

  /** Which tasks are called x and served at position j. */
  function Marks(tasks: seq<string>, n: nat, q: nat, j: nat, x: string): seq<bool>
    requires q < n
  {
    seq(|tasks|, k requires 0 <= k < |tasks| => tasks[k] == x && Position(n, q, k) == j)
  }

  ghost function Marked(marks: seq<bool>): set<nat> { set k: nat | 0 <= k < |marks| && marks[k] }

  lemma OneMoreMarked(marks: seq<bool>, mark: bool)
    ensures |Marked(marks + [mark])| == |Marked(marks)| + if mark then 1 else 0
  {
    assert Marked(marks + [mark]) == Marked(marks) + if mark then {|marks|} else {};
  }

  /** Task k goes to the position of the k-th call. */
  lemma {:induction false} AssignedRoundRobin(tasks: seq<string>, n: nat, q: nat, j: nat, x: string)
    requires q < n
    ensures AssignedTo(tasks, n, q, j)[x] == |Marked(Marks(tasks, n, q, j, x))|
  {
    if tasks == [] {
      assert Marked(Marks(tasks, n, q, j, x)) == {};
    } else {
      AssignedRoundRobin(tasks[..|tasks| - 1], n, q, j, x);
      LastAssigned(tasks, n, q, j, x);
      LastMarked(tasks, n, q, j, x);
    }
  }

  /** Whether the last task is called x and goes to position j. */
  predicate LastMark(tasks: seq<string>, n: nat, q: nat, j: nat, x: string)
    requires q < n && tasks != []
  {
    tasks[|tasks| - 1] == x && Position(n, q, |tasks| - 1) == j
  }

  lemma LastAssigned(tasks: seq<string>, n: nat, q: nat, j: nat, x: string)
    requires q < n && tasks != []
    ensures AssignedTo(tasks, n, q, j)[x] ==
            AssignedTo(tasks[..|tasks| - 1], n, q, j)[x] + if LastMark(tasks, n, q, j, x) then 1 else 0
  {
  }

  lemma LastMarked(tasks: seq<string>, n: nat, q: nat, j: nat, x: string)
    requires q < n && tasks != []
    ensures |Marked(Marks(tasks, n, q, j, x))| ==
            |Marked(Marks(tasks[..|tasks| - 1], n, q, j, x))| + if LastMark(tasks, n, q, j, x) then 1 else 0
  {
    var k := |tasks| - 1;
    var marks := Marks(tasks, n, q, j, x);
    assert marks == marks[..k] + [marks[k]] && marks[..k] == Marks(tasks[..k], n, q, j, x);
    OneMoreMarked(marks[..k], marks[k]);
  }

  lemma {:induction false} AssignedIsLoad(tasks: seq<string>, n: nat, q: nat, j: nat)
    requires q < n
    ensures |AssignedTo(tasks, n, q, j)| == Load(n, q, j, |tasks|)
  {
    if tasks != [] {
      AssignedIsLoad(tasks[..|tasks| - 1], n, q, j);
    }
  }

  /** Tasks called x at the first m positions. */
  function Total(tasks: seq<string>, n: nat, q: nat, m: nat, x: string): nat
    requires q < n
  {
    if m == 0 then 0 else Total(tasks, n, q, m - 1, x) + AssignedTo(tasks, n, q, m - 1)[x]
  }

  lemma {:induction false} TotalGrows(tasks: seq<string>, n: nat, q: nat, m: nat, x: string)
    requires q < n && tasks != []
    ensures Total(tasks, n, q, m, x) == Total(tasks[..|tasks| - 1], n, q, m, x) +
            if Position(n, q, |tasks| - 1) < m && tasks[|tasks| - 1] == x then 1 else 0
    decreases m
  {
    if m > 0 {
      TotalGrows(tasks, n, q, m - 1, x);
    }
  }

  /** No task is lost and none is placed twice. */
  lemma {:induction false} AllTasksAreAssigned(tasks: seq<string>, n: nat, q: nat, x: string)
    requires q < n
    ensures Total(tasks, n, q, n, x) == multiset(tasks)[x]
  {
    if tasks == [] {
      TotalOfNone(n, q, n, x);
    } else {
      var before, t := tasks[..|tasks| - 1], tasks[|tasks| - 1];
      AllTasksAreAssigned(before, n, q, x);
      TotalGrows(tasks, n, q, n, x);
      assert tasks == before + [t];
    }
  }

  lemma {:induction false} TotalOfNone(n: nat, q: nat, m: nat, x: string)
    requires q < n
    ensures Total([], n, q, m, x) == 0
    decreases m
  {
    if m > 0 {
      TotalOfNone(n, q, m - 1, x);
    }
  }
}
