/** The bully election over a stable membership of n nodes, named by rank: node 0 has the
    smallest id.  Everything that is going on (threads and messages) is a token in a bag; an
    action lets one token act, so every interleaving and every delivery order is covered. */
module Election {
  import opened Options

  /** The election state of one node. */
  datatype Node = Node(
    started: bool,            // the gate: an election is in progress here
    okReceived: bool,
    leader: Option<nat>,
    previousLeader: Option<nat>,
    expected: nat,            // confirmations an announcer waits for
    received: nat)

  datatype Token =
    | Start(node: nat)                           // an election thread in front of the gate
    | Passed(node: nat)                          // ... behind it, before it does anything else
    | Waiting(node: nat, thread: nat)            // ... inside sendElectionStart, joining its requests
    | Request(from: nat, thread: nat, node: nat) // ELECTION_START on its way
    | Ok(node: nat, thread: nat)                 // OK_MSG on its way back
    | Announce(leader: nat, node: nat)           // NEW_LEADER on its way
    | Confirm(from: nat, node: nat)              // ELECT_CONFIRM on its way back

  datatype State = State(nodes: seq<Node>, bag: seq<Token>, threads: nat)

  // ---- what one node does ----

  /** setNewLeader: adopt the leader, remember it, open the gate. */
  function NewLeader(v: Node, leader: nat): Node {
    v.(leader := Some(leader), previousLeader := Some(leader), started := false)
  }

  /** Passing the open gate. */
  function Pass(v: Node): Node {
    v.(started := true)
  }

  /** What a thread that has passed does next, at rank `rank` among n nodes. */
  function Proceed(v: Node, rank: nat, n: nat): Node {
    if rank == 0 then v.(expected := n, received := 0) else v.(okReceived := false)
  }

  /** OK_MSG. */
  function OnOk(v: Node): Node {
    v.(okReceived := true)
  }

  /** NEW_LEADER: the announcer ignores its own announcement, everyone confirms. */
  function OnAnnounce(v: Node, self: nat, leader: nat): Node {
    if leader != self then NewLeader(v, leader) else v
  }

  /** ELECT_CONFIRM: count it; the last one makes the announcer its own leader. */
  function OnConfirm(v: Node, self: nat): Node {
    var w := v.(received := v.received + 1);
    if w.expected == w.received then NewLeader(w, self) else w
  }

  // ---- the whole system ----

  function Announcements(leader: nat, n: nat): seq<Token> {
    seq(n, j requires 0 <= j < n => Announce(leader, j))
  }

  function Requests(from: nat, thread: nat): seq<Token> {
    seq(from, j requires 0 <= j < from => Request(from, thread, j))
  }

  /** What it sets in motion: the minimum announces itself, any other node asks all lower ones. */
  function Proceeds(rank: nat, n: nat, thread: nat): seq<Token> {
    if rank == 0 then Announcements(0, n) else [Waiting(rank, thread)] + Requests(rank, thread)
  }

  /** What a thread sets in motion when all its requests have been joined. */
  function Joined(v: Node, rank: nat, n: nat): seq<Token> {
    if v.okReceived then [] else Announcements(rank, n)
  }

  /** Some reply to this thread is still to come. */
  ghost predicate Outstanding(bag: seq<Token>, node: nat, thread: nat) {
    Ok(node, thread) in bag || exists j :: Request(node, thread, j) in bag
  }

  function Without(bag: seq<Token>, k: nat): seq<Token>
    requires k < |bag|
  {
    bag[..k] + bag[k + 1..]
  }

  /** Lets token k act; None if it cannot. */
  ghost function Fire(s: State, k: nat): Option<State> {
    if k >= |s.bag| || s.bag[k].node >= |s.nodes| then None else
    var rest := Without(s.bag, k);
    var i, n := s.bag[k].node, |s.nodes|;
    var v := s.nodes[i];
    match s.bag[k]
    case Start(_) =>
      if v.started then Some(s.(bag := rest))
      else Some(s.(nodes := s.nodes[i := Pass(v)], bag := rest + [Passed(i)]))
    case Passed(_) =>
      Some(State(s.nodes[i := Proceed(v, i, n)], rest + Proceeds(i, n, s.threads),
                 if i == 0 then s.threads else s.threads + 1))
    case Request(from, thread, _) =>
      Some(s.(bag := rest + [Ok(from, thread), Start(i)]))
    case Ok(_, _) =>
      Some(s.(nodes := s.nodes[i := OnOk(v)], bag := rest))
    case Waiting(_, thread) =>
      if Outstanding(rest, i, thread) then None
      else Some(s.(bag := rest + Joined(v, i, n)))
    case Announce(leader, _) =>
      Some(s.(nodes := s.nodes[i := OnAnnounce(v, i, leader)], bag := rest + [Confirm(i, leader)]))
    case Confirm(_, _) =>
      Some(s.(nodes := s.nodes[i := OnConfirm(v, i)], bag := rest))
  }

  /** Act(k) lets token k act; Trigger(i) is a daemon start or a leader failure noticed at i. */
  datatype Action = Act(k: nat) | Trigger(i: nat)

  ghost function Apply(s: State, a: Action): Option<State> {
    match a
    case Act(k) => Fire(s, k)
    case Trigger(i) => if i < |s.nodes| then Some(s.(bag := s.bag + [Start(i)])) else None
  }

  ghost function Run(s: State, actions: seq<Action>): Option<State> {
    if actions == [] then Some(s)
    else match Run(s, actions[..|actions| - 1])
      case None => None
      case Some(t) => Apply(t, actions[|actions| - 1])
  }

  /** Token k is a thread about to clear okReceived of a node that is not the minimum. */
  predicate Clears(s: State, k: nat) {
    k < |s.bag| && s.bag[k].Passed? && 0 < s.bag[k].node < |s.nodes|
  }

  /** No thread of that node has all its replies but has not yet looked at okReceived. */
  ghost predicate SafeClear(s: State, a: Action) {
    a.Act? && Clears(s, a.k) ==>
      forall thread :: Waiting(s.bag[a.k].node, thread) in s.bag ==> Outstanding(s.bag, s.bag[a.k].node, thread)
  }

  ghost predicate SafeRun(s: State, actions: seq<Action>)
    requires Run(s, actions).Some?
  {
    actions != [] ==>
      SafeRun(s, actions[..|actions| - 1]) &&
      SafeClear(Run(s, actions[..|actions| - 1]).value, actions[|actions| - 1])
  }

  // ---- termination ----

  /** Weight of the requests a node of the given rank sends; doubles with every rank. */
  function RequestsWeight(n: nat, rank: nat): nat {
    if rank == 0 then 0
    else RequestsWeight(n, rank - 1) + StartWeight(n, RequestsWeight(n, rank - 1)) + 2
  }

  function StartWeight(n: nat, requests: nat): nat { 2 * n + 3 + requests }

  function Weight(n: nat, t: Token): nat {
    match t
    case Start(i) => StartWeight(n, RequestsWeight(n, i))
    case Passed(i) => 2 * n + 2 + RequestsWeight(n, i)
    case Waiting(_, _) => 2 * n + 1
    case Request(_, _, i) => StartWeight(n, RequestsWeight(n, i)) + 2
    case Ok(_, _) => 1
    case Announce(_, _) => 2
    case Confirm(_, _) => 1
  }

  function BagWeight(n: nat, bag: seq<Token>): nat {
    if bag == [] then 0 else Weight(n, bag[0]) + BagWeight(n, bag[1..])
  }

  lemma {:induction false} BagWeightConcat(n: nat, a: seq<Token>, b: seq<Token>)
    ensures BagWeight(n, a + b) == BagWeight(n, a) + BagWeight(n, b)
  {
    if a == [] {
      assert a + b == b;
    } else {
      BagWeightConcat(n, a[1..], b);
      assert (a + b)[0] == a[0] && (a + b)[1..] == a[1..] + b;
    }
  }

  lemma BagWeightAdd(n: nat, bag: seq<Token>, t: Token)
    ensures BagWeight(n, bag + [t]) == BagWeight(n, bag) + Weight(n, t)
  {
    BagWeightConcat(n, bag, [t]);
    assert [t][1..] == [];
  }

  lemma BagWeightWithout(n: nat, bag: seq<Token>, k: nat)
    requires k < |bag|
    ensures BagWeight(n, bag) == Weight(n, bag[k]) + BagWeight(n, Without(bag, k))
  {
    assert bag == bag[..k] + ([bag[k]] + bag[k + 1..]);
    BagWeightConcat(n, bag[..k], [bag[k]] + bag[k + 1..]);
    BagWeightConcat(n, [bag[k]], bag[k + 1..]);
    BagWeightConcat(n, bag[..k], bag[k + 1..]);
    assert [bag[k]][1..] == [];
  }

  lemma {:induction false} AnnouncementsWeight(n: nat, leader: nat, count: nat)
    ensures BagWeight(n, Announcements(leader, count)) == 2 * count
  {
    if count > 0 {
      AnnouncementsWeight(n, leader, count - 1);
      assert Announcements(leader, count) == Announcements(leader, count - 1) + [Announce(leader, count - 1)];
      BagWeightAdd(n, Announcements(leader, count - 1), Announce(leader, count - 1));
    }
  }

  lemma {:induction false} RequestsWeigh(n: nat, from: nat, thread: nat, count: nat)
    requires count <= from
    ensures BagWeight(n, Requests(from, thread)[..count]) == RequestsWeight(n, count)
  {
    if count > 0 {
      RequestsWeigh(n, from, thread, count - 1);
      var r := Request(from, thread, count - 1);
      assert Requests(from, thread)[..count] == Requests(from, thread)[..count - 1] + [r];
      BagWeightAdd(n, Requests(from, thread)[..count - 1], r);
    }
  }

  lemma ProceedsWeight(n: nat, i: nat, thread: nat)
    ensures BagWeight(n, Proceeds(i, n, thread)) < Weight(n, Passed(i))
  {
    if i == 0 {
      AnnouncementsWeight(n, 0, n);
    } else {
      RequestsWeigh(n, i, thread, i);
      assert Requests(i, thread)[..i] == Requests(i, thread);
      BagWeightConcat(n, [Waiting(i, thread)], Requests(i, thread));
      assert [Waiting(i, thread)][1..] == [];
    }
  }

  /** Whatever acts, the weight of what is going on strictly falls. */
  lemma FireLosesWeight(s: State, k: nat)
    requires Fire(s, k).Some?
    ensures |Fire(s, k).value.nodes| == |s.nodes|
    ensures BagWeight(|s.nodes|, Fire(s, k).value.bag) < BagWeight(|s.nodes|, s.bag)
  {
    var n, rest := |s.nodes|, Without(s.bag, k);
    BagWeightWithout(n, s.bag, k);
    match s.bag[k]
    case Start(i) =>
      BagWeightAdd(n, rest, Passed(i));
    case Passed(i) =>
      ProceedsWeight(n, i, s.threads);
      BagWeightConcat(n, rest, Proceeds(i, n, s.threads));
    case Request(from, thread, i) =>
      BagWeightAdd(n, rest, Ok(from, thread));
      BagWeightAdd(n, rest + [Ok(from, thread)], Start(i));
      assert rest + [Ok(from, thread), Start(i)] == (rest + [Ok(from, thread)]) + [Start(i)];
    case Ok(_, _) =>
    case Waiting(i, _) =>
      AnnouncementsWeight(n, i, n);
      BagWeightConcat(n, rest, Joined(s.nodes[i], i, n));
    case Announce(leader, i) =>
      BagWeightAdd(n, rest, Confirm(i, leader));
    case Confirm(_, _) =>
  }

  ghost predicate NoTrigger(actions: seq<Action>) {
    forall a :: a in actions ==> a.Act?
  }

  /** Termination, for every schedule and every state, with or without overlapping threads: an
      election cascade takes at most BagWeight steps. */
  lemma {:induction false} CascadeEnds(s: State, actions: seq<Action>)
    requires NoTrigger(actions) && Run(s, actions).Some?
    ensures |Run(s, actions).value.nodes| == |s.nodes|
    ensures |actions| + BagWeight(|s.nodes|, Run(s, actions).value.bag) <= BagWeight(|s.nodes|, s.bag)
    decreases |actions|
  {
    if actions != [] {
      var before, a := actions[..|actions| - 1], actions[|actions| - 1];
      CascadeEnds(s, before);
      assert a in actions;
      FireLosesWeight(Run(s, before).value, a.k);
    }
  }
}
