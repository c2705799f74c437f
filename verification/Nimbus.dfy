/** The master's placement of a topology and the supervisors' ports. */
module NimbusCode {
  import opened Collections
  import opened Text
  import opened Addresses
  import opened Topology
  import opened Placement

  const WORKER_BASE_PORT := 3000

  function MakeAddr(ip: string, port: nat): string { "tcp://" + ip + ":" + Decimal(port) }

  /** Position of the last colon, which separates the host from the port. */
  function LastColon(s: string): nat {
    if s == [] then 0 else if s[|s| - 1] == ':' then |s| - 1 else LastColon(s[..|s| - 1])
  }

  lemma {:induction false} LastColonIs(host: string, digits: string)
    requires ':' !in digits
    ensures LastColon(host + ":" + digits) == |host|
    decreases |digits|
  {
    var s := host + ":" + digits;
    if digits == [] {
      assert s[|s| - 1] == ':';
    } else {
      LastColonIs(host, digits[..|digits| - 1]);
      assert s[..|s| - 1] == host + ":" + digits[..|digits| - 1];
    }
  }

  /** Different hosts or different ports have different addresses. */
  lemma AddressesDiffer(ip: string, port: nat, ip': string, port': nat)
    requires MakeAddr(ip, port) == MakeAddr(ip', port')
    ensures ip == ip' && port == port'
  {
    DecimalReadsBack(port);
    DecimalReadsBack(port');
    LastColonIs("tcp://" + ip, Decimal(port));
    LastColonIs("tcp://" + ip', Decimal(port'));
    assert MakeAddr(ip, port)[6..|ip| + 6] == ip && MakeAddr(ip', port')[6..|ip'| + 6] == ip';
    assert MakeAddr(ip, port)[|ip| + 7..] == Decimal(port) && MakeAddr(ip', port')[|ip'| + 7..] == Decimal(port');
  }

  function Ports(from: nat, count: nat): seq<nat> { seq(count, i => from + i) }

  /** One group of connections of a worker: to all instances of one child. */
  datatype Group = Group(childName: string, grouping: string, addresses: seq<string>)

  /** One worker process, with the connections that it has itself. */
  datatype Worker = Worker(port: nat, groups: seq<Group>)

  function Started(ports: seq<nat>): seq<Worker> {
    seq(|ports|, i requires 0 <= i < |ports| => Worker(ports[i], []))
  }

  function Configured(workers: seq<Worker>, groups: seq<Group>): seq<Worker> {
    seq(|workers|, i requires 0 <= i < |workers| => workers[i].(groups := groups))
  }

  function CreateWorkerId(topoId: string, name: string): string {
    "ipc:///tmp/" + topoId + name
  }

  /** Two workers are told apart by the concatenation of the two names only. */
  lemma SameWorkerId(topo: string, name: string, topo': string, name': string)
    ensures CreateWorkerId(topo, name) == CreateWorkerId(topo', name') <==> topo + name == topo' + name'
  {
    assert CreateWorkerId(topo, name)[11..] == topo + name;
    assert CreateWorkerId(topo', name')[11..] == topo' + name';
    assert CreateWorkerId(topo, name) == "ipc:///tmp/" + (topo + name);
    assert CreateWorkerId(topo', name') == "ipc:///tmp/" + (topo' + name');
  }

  function Added(workersMap: map<string, seq<Worker>>, topoId: string, name: string, ports: seq<nat>)
    : map<string, seq<Worker>>
  {
    var id := CreateWorkerId(topoId, name);
    workersMap[id := (if id in workersMap then workersMap[id] else []) + Started(ports)]
  }

  function Reconnected(workersMap: map<string, seq<Worker>>, topoId: string, name: string, groups: seq<Group>)
    : map<string, seq<Worker>>
  {
    var id := CreateWorkerId(topoId, name);
    if id in workersMap then workersMap[id := Configured(workersMap[id], groups)] else workersMap
  }

  function Killed(workersMap: map<string, seq<Worker>>, topoId: string, name: string): map<string, seq<Worker>> {
    workersMap - {CreateWorkerId(topoId, name)}
  }

  /** One hop of the connection groups: they are copied, address by address, in order. */
  method Relay(groups: seq<Group>) returns (copy: seq<Group>)
    ensures copy == groups
  {
    copy := [];
    for k := 0 to |groups|
      invariant copy == groups[..k]
    {
      var addresses: seq<string> := [];
      for i := 0 to |groups[k].addresses|
        invariant addresses == groups[k].addresses[..i]
      {
        addresses := addresses + [groups[k].addresses[i]];
      }
      assert addresses == groups[k].addresses;
      copy := copy + [Group(groups[k].childName, groups[k].grouping, addresses)];
    }
  }

  /** A worker process replaces its connections: it drops what it has and connects to the addresses
      of the new groups, one by one. */
  method Reconnect(worker: Worker, newGroups: seq<Group>) returns (result: Worker)
    ensures result.port == worker.port && result.groups == newGroups
  {
    result := worker.(groups := []);
    for k := 0 to |newGroups|
      invariant result.port == worker.port && result.groups == newGroups[..k]
    {
      var group := Group(newGroups[k].childName, newGroups[k].grouping, []);
      for i := 0 to |newGroups[k].addresses|
        invariant group == newGroups[k].(addresses := newGroups[k].addresses[..i])
      {
        group := group.(addresses := group.addresses + [newGroups[k].addresses[i]]);
      }
      assert group == newGroups[k];
      result := result.(groups := result.groups + [group]);
    }
  }

  class Supervisor {
    var port: nat
    var workersMap: map<string, seq<Worker>>  // worker id to its instances

    constructor ()
      ensures port == WORKER_BASE_PORT && workersMap == map[]
    {
      port, workersMap := WORKER_BASE_PORT, map[];
    }

    method NextAvailableWorkerPort() returns (p: nat)
      modifies this`port
      ensures p == old(port) && port == old(port) + 1
    {
      p := port;
      port := port + 1;
    }

    function Workers(workerId: string): seq<Worker>
      reads this
    {
      if workerId in workersMap then workersMap[workerId] else []
    }

    /** The ports handed out are fresh, and are reported in the order of the new instances. */
    method AddWorker(topoId: string, name: string, parallelismLevel: nat) returns (ports: seq<nat>)
      modifies this
      ensures ports == Ports(old(port), parallelismLevel) && port == old(port) + parallelismLevel
      ensures workersMap == Added(old(workersMap), topoId, name, ports)
    {
      var workerId := CreateWorkerId(topoId, name);
      var workersList := Workers(workerId);
      ports := [];
      for i := 0 to parallelismLevel
        invariant ports == Ports(old(port), i) && port == old(port) + i
        invariant workersMap == old(workersMap) && workersList == old(Workers(workerId)) + Started(ports)
      {
        var dataPort := NextAvailableWorkerPort();
        workersList := workersList + [Worker(dataPort, [])];
        assert Started(ports + [dataPort]) == Started(ports) + [Worker(dataPort, [])];
        ports := ports + [dataPort];
      }
      workersMap := workersMap[workerId := workersList];
    }

    /** Replaces the connections of every instance with that worker id: the groups go to the worker
        process in one message, are unpacked there and connected. */
    method ConfigureConnections(topoId: string, name: string, groups: seq<Group>)
      modifies this`workersMap
      ensures workersMap == Reconnected(old(workersMap), topoId, name, groups)
    {
      var workerId := CreateWorkerId(topoId, name);
      if workerId in workersMap {
        var workers: seq<Worker> := [];
        for i := 0 to |workersMap[workerId]|
          invariant workersMap == old(workersMap) && |workers| == i
          invariant forall j :: 0 <= j < i ==> workers[j] == workersMap[workerId][j].(groups := groups)
        {
          var sent := Relay(groups);
          var received := Relay(sent);
          var worker := Reconnect(workersMap[workerId][i], received);
          workers := workers + [worker];
        }
        assert workers == Configured(workersMap[workerId], groups);
        workersMap := workersMap[workerId := workers];
      }
    }

    method KillWorker(topoId: string, name: string)
      modifies this`workersMap
      ensures workersMap == Killed(old(workersMap), topoId, name)
    {
      workersMap := workersMap - {CreateWorkerId(topoId, name)};
    }
  }

  // ---- grouping a queue ----

  datatype Request = Request(name: string, count: nat)

  function RequestNames(requests: seq<Request>): seq<string> {
    seq(|requests|, i requires 0 <= i < |requests| => requests[i].name)
  }

  function Requested(requests: seq<Request>, name: string): nat {
    if requests == [] then 0
    else
      var last := requests[|requests| - 1];
      Requested(requests[..|requests| - 1], name) + if last.name == name then last.count else 0
  }

  ghost predicate IsLargest(queue: multiset<string>, top: string) {
    forall x :: x in queue ==> !Less(top, x)
  }

  /** priority_queue::top, the largest string. */
  method Top(queue: multiset<string>) returns (top: string)
    requires queue != multiset{}
    ensures top in queue && IsLargest(queue, top)
  {
    top :| top in queue;
    LessTotal(top, top);
    var rest := queue;
    ghost var seen := multiset{top};
    while rest != multiset{}
      invariant rest <= queue && top in queue && IsLargest(seen, top)
      invariant forall x :: x in queue ==> x in rest || x in seen
      decreases |rest|
    {
      var x :| x in rest;
      LessTotal(x, x);
      if Less(top, x) {
        forall y | y in seen ensures !Less(x, y) {
          LessTotal(top, x);
          NotLessTransitive(x, top, y);
        }
        top := x;
      }
      rest, seen := rest[x := 0], seen + multiset{x};
    }
  }

  /** Whether the largest element of the queue is name, which nothing in the queue exceeds. */
  method TopIs(queue: multiset<string>, name: string) returns (b: bool)
    requires IsLargest(queue, name)
    ensures b <==> name in queue
  {
    b := false;
    if queue != multiset{} {
      var top := Top(queue);
      LessTotal(name, top);
      b := name == top;
    }
  }

  /** Pops all occurrences of the name at the top, which follow each other. */
  method PopRun(all: multiset<string>, name: string) returns (count: nat, queue: multiset<string>)
    requires name in all && IsLargest(all, name)
    ensures count == all[name] && queue == all[name := 0]
  {
    count, queue := 1, all - multiset{name};
    var more := TopIs(queue, name);
    while more
      invariant 1 <= count <= all[name]
      invariant forall x :: queue[x] == if x == name then all[name] - count else all[x]
      invariant more == (name in queue)
      decreases |queue|
    {
      count, queue := count + 1, queue - multiset{name};
      more := TopIs(queue, name);
    }
  }

  /** Pops a supervisor's queue, joining equal names: one request per name, for all its instances. */
  method GroupRuns(tasks: multiset<string>) returns (requests: seq<Request>)
    ensures Grouped(requests, tasks)
  {
    var queue := tasks;
    requests := [];
    ghost var popped := multiset{};
    while queue != multiset{}
      invariant tasks == popped + queue && Grouped(requests, popped) && AllSmaller(queue, requests)
      decreases |queue|
    {
      var name := Top(queue);
      var count, rest := PopRun(queue, name);
      OneMoreRun(requests, popped, queue, name, count);
      RunMoved(popped, queue, name);
      requests, popped, queue := requests + [Request(name, count)], popped[name := count], rest;
    }
    assert popped == tasks;
  }

  /** One request for every name in the bag, for all its instances, in descending order. */
  ghost predicate Grouped(requests: seq<Request>, bag: multiset<string>) {
    OneRequestEach(requests, bag) && Instances(requests) == |bag| && Descending(requests)
  }

  /** What is still in the queue is smaller than what has been requested. */
  ghost predicate AllSmaller(queue: multiset<string>, requests: seq<Request>) {
    forall x, k :: x in queue && 0 <= k < |requests| ==> Less(x, requests[k].name)
  }

  lemma OneMoreRun(requests: seq<Request>, popped: multiset<string>, queue: multiset<string>, name: string, count: nat)
    requires Grouped(requests, popped) && AllSmaller(queue, requests)
    requires name in queue && IsLargest(queue, name) && count > 0
    ensures name !in popped
    ensures Grouped(requests + [Request(name, count)], popped[name := count])
    ensures AllSmaller(queue[name := 0], requests + [Request(name, count)])
  {
    NameIsNew(requests, popped, name);
    OneMoreRequest(requests, popped, name, count);
    OneMorePopped(requests, popped, name, count);
    StillSmaller(requests, queue, name, count);
  }

  /** How many instances the requests are for. */
  function Instances(requests: seq<Request>): nat {
    if requests == [] then 0 else Instances(requests[..|requests| - 1]) + requests[|requests| - 1].count
  }

  /** The names come in descending order, as they leave the priority queue. */
  ghost predicate Descending(requests: seq<Request>) {
    forall i, j :: 0 <= i < j < |requests| ==> Less(requests[j].name, requests[i].name)
  }

  lemma RunMoved(popped: multiset<string>, queue: multiset<string>, name: string)
    requires name in queue && name !in popped
    ensures popped[name := queue[name]] + queue[name := 0] == popped + queue
    ensures |queue[name := 0]| < |queue|
  {
    assert queue[name := 0] + multiset{}[name := queue[name]] == queue;
  }

  lemma NameIsNew(requests: seq<Request>, popped: multiset<string>, name: string)
    requires OneRequestEach(requests, popped)
    requires forall k :: 0 <= k < |requests| ==> Less(name, requests[k].name)
    ensures name !in popped
  {
    LessTotal(name, name);
    NotRequested(requests, name);
    assert Requested(requests, name) == popped[name];
  }

  lemma {:induction false} NotRequested(requests: seq<Request>, name: string)
    requires forall k :: 0 <= k < |requests| ==> requests[k].name != name
    ensures Requested(requests, name) == 0
  {
    if requests != [] {
      NotRequested(requests[..|requests| - 1], name);
    }
  }

  lemma OneMorePopped(requests: seq<Request>, popped: multiset<string>, name: string, count: nat)
    requires name !in popped && Instances(requests) == |popped|
    ensures Instances(requests + [Request(name, count)]) == |popped[name := count]|
  {
    var more := requests + [Request(name, count)];
    assert more[..|more| - 1] == requests;
    assert popped[name := count] == popped + multiset{}[name := count];
  }

  lemma StillSmaller(requests: seq<Request>, queue: multiset<string>, name: string, count: nat)
    requires name in queue && IsLargest(queue, name)
    requires AllSmaller(queue, requests)
    ensures AllSmaller(queue[name := 0], requests + [Request(name, count)])
    ensures Descending(requests) ==> Descending(requests + [Request(name, count)])
  {
    forall x | x in queue[name := 0] ensures x in queue && Less(x, name) {
      LessTotal(name, x);
    }
  }

  /** Every name has one request, for as many instances as it has in the bag. */
  ghost predicate OneRequestEach(requests: seq<Request>, bag: multiset<string>) {
    && NoDuplicates(RequestNames(requests))
    && (forall name :: Requested(requests, name) == bag[name])
    && (forall k :: 0 <= k < |requests| ==> requests[k].count == bag[requests[k].name] > 0)
  }

  lemma OneMoreRequest(requests: seq<Request>, bag: multiset<string>, name: string, count: nat)
    requires OneRequestEach(requests, bag) && name !in bag && count > 0
    ensures OneRequestEach(requests + [Request(name, count)], bag[name := count])
  {
    var more := requests + [Request(name, count)];
    assert more[..|more| - 1] == requests;
    assert RequestNames(more) == RequestNames(requests) + [name];
    forall k | 0 <= k < |requests| ensures RequestNames(requests)[k] != name {
      assert requests[k].name in bag;
    }
  }

  // ---- recorded instances ----

  /** Addresses of the instances of each (topology, name). */
  type Book = map<(string, string), seq<string>>

  function Recorded(book: Book, key: (string, string)): seq<string> {
    if key in book then book[key] else []
  }

  /** Port counters of the supervisors that have started workers. */
  type Counters = map<string, nat>

  function NextPort(counters: Counters, supervisor: string): nat {
    if supervisor in counters then counters[supervisor] else WORKER_BASE_PORT
  }

  /** The address has been handed out. */
  ghost predicate HandedOut(counters: Counters, address: string) {
    exists s, p: nat :: address == MakeAddr(s, p) && p < NextPort(counters, s)
  }

  ghost predicate AllHandedOut(counters: Counters, book: Book) {
    forall key, i :: key in book && 0 <= i < |book[key]| ==> HandedOut(counters, book[key][i])
  }

  /** No address is recorded twice, neither for different names or topologies nor for the same. */
  ghost predicate AllDifferent(book: Book) {
    forall k, i, l, j ::
      (k in book && 0 <= i < |book[k]| && l in book && 0 <= j < |book[l]| && book[k][i] == book[l][j]) ==>
        k == l && i == j
  }

  function AddressesOf(supervisor: string, ports: seq<nat>): seq<string> {
    seq(|ports|, i requires 0 <= i < |ports| => MakeAddr(supervisor, ports[i]))
  }

  function WithInstances(book: Book, key: (string, string), supervisor: string, from: nat, count: nat): Book {
    book[key := Recorded(book, key) + AddressesOf(supervisor, Ports(from, count))]
  }

  // ---- where instances are ----

  /** The address is one of this host, with a port in this range. */
  ghost predicate HostedAt(address: string, host: string, low: nat, high: nat) {
    exists p: nat :: low <= p < high && address == MakeAddr(host, p)
  }

  ghost predicate AtHost(address: string, host: string) { exists p: nat :: address == MakeAddr(host, p) }

  /** How many of the addresses are at this host. */
  ghost function CountAt(addresses: seq<string>, host: string): nat {
    if addresses == [] then 0
    else CountAt(addresses[..|addresses| - 1], host) + if AtHost(addresses[|addresses| - 1], host) then 1 else 0
  }

  lemma {:induction false} CountAtConcat(a: seq<string>, b: seq<string>, host: string)
    ensures CountAt(a + b, host) == CountAt(a, host) + CountAt(b, host)
  {
    if b == [] {
      assert a + b == a;
    } else {
      var s := a + b;
      assert s[..|s| - 1] == a + b[..|b| - 1] && s[|s| - 1] == b[|b| - 1];
      CountAtConcat(a, b[..|b| - 1], host);
    }
  }

  lemma HostOf(host: string, port: nat, other: string)
    ensures AtHost(MakeAddr(host, port), other) <==> host == other
  {
    if p: nat :| MakeAddr(host, port) == MakeAddr(other, p) {
      AddressesDiffer(host, port, other, p);
    }
  }

  /** All of them are addresses of this host with ports in this range. */
  ghost predicate AllHosted(addresses: seq<string>, host: string, low: nat, high: nat) {
    forall i :: 0 <= i < |addresses| ==> HostedAt(addresses[i], host, low, high)
  }

  lemma HostedLonger(address: string, host: string, low: nat, high: nat, low': nat, high': nat)
    requires HostedAt(address, host, low, high) && low' <= low && high <= high'
    ensures HostedAt(address, host, low', high')
  {
    var p: nat :| low <= p < high && address == MakeAddr(host, p);
    assert low' <= p < high' && address == MakeAddr(host, p);
  }

  lemma FreshHosted(s: string, from: nat, count: nat)
    ensures AllHosted(AddressesOf(s, Ports(from, count)), s, from, from + count)
  {
    forall i | 0 <= i < count ensures HostedAt(AddressesOf(s, Ports(from, count))[i], s, from, from + count) {
      assert from <= from + i < from + count;
    }
  }

  lemma AllHostedConcat(a: seq<string>, b: seq<string>, host: string, low: nat, mid: nat, high: nat)
    requires AllHosted(a, host, low, mid) && AllHosted(b, host, mid, high) && low <= mid <= high
    ensures AllHosted(a + b, host, low, high)
  {
    forall i | 0 <= i < |a + b| ensures HostedAt((a + b)[i], host, low, high) {
      if i < |a| {
        HostedLonger(a[i], host, low, mid, low, high);
      } else {
        HostedLonger(b[i - |a|], host, mid, high, low, high);
      }
    }
  }

  /** Addresses of one host are all counted there, and nowhere else. */
  lemma {:induction false} HostedCounted(added: seq<string>, host: string, low: nat, high: nat, other: string)
    requires AllHosted(added, host, low, high)
    ensures CountAt(added, other) == if other == host then |added| else 0
  {
    if added != [] {
      var last := added[|added| - 1];
      assert HostedAt(last, host, low, high);
      var p: nat :| low <= p < high && last == MakeAddr(host, p);
      HostOf(host, p, other);
      HostedCounted(added[..|added| - 1], host, low, high, other);
    }
  }

  /** Only addresses of `host` have been added, `count` of them, with ports in this range. */
  ghost predicate AddedAt(before: seq<string>, after: seq<string>, host: string, count: nat, low: nat, high: nat) {
    before <= after && |after| == |before| + count && AllHosted(after[|before|..], host, low, high)
  }

  lemma AddedMore(before: seq<string>, mid: seq<string>, s: string, had: nat, low: nat, from: nat, count: nat)
    requires AddedAt(before, mid, s, had, low, from) && low <= from
    ensures AddedAt(before, mid + AddressesOf(s, Ports(from, count)), s, had + count, low, from + count)
  {
    var added := AddressesOf(s, Ports(from, count));
    assert (mid + added)[|before|..] == mid[|before|..] + added;
    FreshHosted(s, from, count);
    AllHostedConcat(mid[|before|..], added, s, low, from, from + count);
  }

  lemma AddedLess(before: seq<string>, after: seq<string>, s: string, count: nat, low: nat, from: nat, high: nat)
    requires AddedAt(before, after, s, count, low, from) && low <= from <= high
    ensures AddedAt(before, after, s, count, low, high)
  {
    assert after[|before|..] + [] == after[|before|..];
    AllHostedConcat(after[|before|..], [], s, low, from, high);
  }

  /** One supervisor has handed out `count` ports. */
  ghost predicate CountersMoved(counters: Counters, later: Counters, s: string, count: nat) {
    forall t :: NextPort(later, t) == NextPort(counters, t) + if t == s then count else 0
  }

  /** What the requests to one supervisor do to the book and to its port counter. */
  ghost predicate StartedAt(before: Book, after: Book, counters: Counters, later: Counters, topoId: string,
      s: string, requests: seq<Request>)
  {
    && CountersMoved(counters, later, s, Instances(requests))
    && BookStarted(before, after, topoId, s, requests, NextPort(counters, s), NextPort(later, s))
    && OthersUnchanged(before, after, topoId)
  }

  /** ... to the book: of each name as many instances as requested. */
  ghost predicate BookStarted(before: Book, after: Book, topoId: string, s: string, requests: seq<Request>, low: nat,
      high: nat)
  {
    forall name ::
      AddedAt(Recorded(before, (topoId, name)), Recorded(after, (topoId, name)), s, Requested(requests, name),
              low, high)
  }

  lemma NothingStarted(book: Book, counters: Counters, topoId: string, s: string)
    ensures StartedAt(book, book, counters, counters, topoId, s, [])
  {
  }

  lemma OneMoreStarted(before: Book, mid: Book, after: Book, counters: Counters, now: Counters, later: Counters,
      topoId: string, s: string, requests: seq<Request>, k: nat)
    requires k < |requests| && StartedAt(before, mid, counters, now, topoId, s, requests[..k])
    requires after == WithInstances(mid, (topoId, requests[k].name), s, NextPort(now, s), requests[k].count)
    requires later == now[s := NextPort(now, s) + requests[k].count]
    ensures StartedAt(before, after, counters, later, topoId, s, requests[..k + 1])
  {
    OneMoreCounted(counters, now, s, requests, k);
    OneMoreBooked(before, mid, topoId, s, requests, k, NextPort(counters, s), NextPort(now, s));
    StillUnchanged(before, mid, topoId, s, NextPort(now, s), requests[k]);
  }

  lemma OneMoreCounted(counters: Counters, now: Counters, s: string, requests: seq<Request>, k: nat)
    requires k < |requests| && CountersMoved(counters, now, s, Instances(requests[..k]))
    ensures CountersMoved(counters, now[s := NextPort(now, s) + requests[k].count], s, Instances(requests[..k + 1]))
  {
    assert requests[..k + 1][..k] == requests[..k];
  }

  lemma OneMoreBooked(before: Book, mid: Book, topoId: string, s: string, requests: seq<Request>, k: nat, low: nat,
      from: nat)
    requires k < |requests| && BookStarted(before, mid, topoId, s, requests[..k], low, from) && low <= from
    ensures BookStarted(before, WithInstances(mid, (topoId, requests[k].name), s, from, requests[k].count), topoId, s,
        requests[..k + 1], low, from + requests[k].count)
  {
    var after := WithInstances(mid, (topoId, requests[k].name), s, from, requests[k].count);
    forall name
      ensures AddedAt(Recorded(before, (topoId, name)), Recorded(after, (topoId, name)), s,
                      Requested(requests[..k + 1], name), low, from + requests[k].count)
    {
      var x, y := Recorded(before, (topoId, name)), Recorded(mid, (topoId, name));
      RecordedAfter(mid, (topoId, requests[k].name), s, from, requests[k].count, (topoId, name));
      OneMoreRequested(requests, k, name);
      if name == requests[k].name {
        AddedMore(x, y, s, Requested(requests[..k], name), low, from, requests[k].count);
      } else {
        AddedLess(x, y, s, Requested(requests[..k], name), low, from, from + requests[k].count);
      }
    }
  }

  lemma OneMoreRequested(requests: seq<Request>, k: nat, name: string)
    requires k < |requests|
    ensures Requested(requests[..k + 1], name) ==
            Requested(requests[..k], name) + if requests[k].name == name then requests[k].count else 0
  {
    assert requests[..k + 1][..k] == requests[..k];
  }

  lemma RecordedAfter(book: Book, key: (string, string), s: string, from: nat, count: nat, k: (string, string))
    ensures Recorded(WithInstances(book, key, s, from, count), k) ==
            if k == key then Recorded(book, k) + AddressesOf(s, Ports(from, count)) else Recorded(book, k)
  {
  }

  /** What an entry of the extended book is: an old address, or the next port in turn. */
  lemma EntryIs(book: Book, counters: Counters, key: (string, string), s: string, count: nat, k: (string, string),
      i: nat)
    requires var after := WithInstances(book, key, s, NextPort(counters, s), count); k in after && i < |after[k]|
    ensures var after := WithInstances(book, key, s, NextPort(counters, s), count);
      if i < |Recorded(book, k)| then k in book && after[k][i] == book[k][i]
      else k == key && after[k][i] == MakeAddr(s, NextPort(counters, s) + i - |Recorded(book, key)|)
           && i - |Recorded(book, key)| < count
  {
  }

  lemma NewIsNotOld(counters: Counters, address: string, s: string, p: nat)
    requires HandedOut(counters, address) && p >= NextPort(counters, s)
    ensures address != MakeAddr(s, p)
  {
    var s', p': nat :| address == MakeAddr(s', p') && p' < NextPort(counters, s');
    if address == MakeAddr(s, p) {
      AddressesDiffer(s, p, s', p');
    }
  }

  /** A reply with fresh ports keeps all recorded addresses different. */
  lemma RecordingKeepsDifferent(book: Book, counters: Counters, key: (string, string), s: string, count: nat)
    requires AllHandedOut(counters, book) && AllDifferent(book)
    ensures AllDifferent(WithInstances(book, key, s, NextPort(counters, s), count))
  {
    var after := WithInstances(book, key, s, NextPort(counters, s), count);
    forall k, i, l, j | k in after && 0 <= i < |after[k]| && l in after && 0 <= j < |after[l]| &&
        after[k][i] == after[l][j]
      ensures k == l && i == j
    {
      SameEntry(book, counters, key, s, count, k, i, l, j);
    }
  }

  lemma SameEntry(book: Book, counters: Counters, key: (string, string), s: string, count: nat,
                  k: (string, string), i: nat, l: (string, string), j: nat)
    requires AllHandedOut(counters, book) && AllDifferent(book)
    requires var after := WithInstances(book, key, s, NextPort(counters, s), count);
      k in after && i < |after[k]| && l in after && j < |after[l]| && after[k][i] == after[l][j]
    ensures k == l && i == j
  {
    EntryIs(book, counters, key, s, count, k, i);
    EntryIs(book, counters, key, s, count, l, j);
    var from, had := NextPort(counters, s), |Recorded(book, key)|;
    if i < |Recorded(book, k)| && j >= |Recorded(book, l)| {
      NewIsNotOld(counters, book[k][i], s, from + j - had);
    } else if i >= |Recorded(book, k)| && j < |Recorded(book, l)| {
      NewIsNotOld(counters, book[l][j], s, from + i - had);
    } else if i >= |Recorded(book, k)| {
      AddressesDiffer(s, from + i - had, s, from + j - had);
    }
  }

  lemma RecordingKeepsHandedOut(book: Book, counters: Counters, key: (string, string), s: string, count: nat)
    requires AllHandedOut(counters, book)
    ensures AllHandedOut(counters[s := NextPort(counters, s) + count],
        WithInstances(book, key, s, NextPort(counters, s), count))
  {
    var after, later := WithInstances(book, key, s, NextPort(counters, s), count),
        counters[s := NextPort(counters, s) + count];
    forall k, i | k in after && 0 <= i < |after[k]| ensures HandedOut(later, after[k][i]) {
      EntryIs(book, counters, key, s, count, k, i);
      if i < |Recorded(book, k)| {
        assert HandedOut(counters, book[k][i]);
        var s', p': nat :| book[k][i] == MakeAddr(s', p') && p' < NextPort(counters, s');
        assert p' < NextPort(later, s');
      } else {
        assert NextPort(counters, s) + i - |Recorded(book, key)| < NextPort(later, s);
      }
    }
  }

  // ---- placing ----

  function Queue(assignment: map<string, multiset<string>>, supervisor: string): multiset<string> {
    if supervisor in assignment then assignment[supervisor] else multiset{}
  }

  /** The tasks done so far have gone round robin, the first one to position q. */
  ghost predicate QueuesAre(supervisors: seq<string>, assignment: map<string, multiset<string>>, q: nat,
      done: seq<string>)
    requires q < |supervisors|
  {
    forall j :: 0 <= j < |supervisors| ==> Queue(assignment, supervisors[j]) == AssignedTo(done, |supervisors|, q, j)
  }

  ghost predicate PlacedSoFar(supervisors: seq<string>, assignment: map<string, multiset<string>>, executor: string,
      q: nat, done: seq<string>)
    requires q < |supervisors|
  {
    && NextPosition(supervisors, executor) == Position(|supervisors|, q, |done|)
    && QueuesAre(supervisors, assignment, q, done)
  }

  lemma QueueAfter(assignment: map<string, multiset<string>>, e: string, name: string, s: string)
    ensures Queue(assignment[e := Queue(assignment, e) + multiset{name}], s) ==
            Queue(assignment, s) + if s == e then multiset{name} else multiset{}
  {
  }

  lemma NextAfter(supervisors: seq<string>, p: nat)
    requires NoDuplicates(supervisors) && "" !in supervisors && p < |supervisors|
    ensures NextPosition(supervisors, supervisors[p]) == (p + 1) % |supervisors|
  {
    FindDistinct(supervisors, p);
    assert supervisors[p] in supervisors;
  }

  lemma OnePlaced(supervisors: seq<string>, assignment: map<string, multiset<string>>, executor: string, q: nat,
      done: seq<string>, name: string)
    requires NoDuplicates(supervisors) && "" !in supervisors && q < |supervisors|
    requires PlacedSoFar(supervisors, assignment, executor, q, done)
    ensures var e := supervisors[NextPosition(supervisors, executor)];
      PlacedSoFar(supervisors, assignment[e := Queue(assignment, e) + multiset{name}], e, q, done + [name])
  {
    var n, p := |supervisors|, NextPosition(supervisors, executor);
    var e := supervisors[p];
    var after := assignment[e := Queue(assignment, e) + multiset{name}];
    NextAfter(supervisors, p);
    forall j | 0 <= j < n ensures Queue(after, supervisors[j]) == AssignedTo(done + [name], n, q, j) {
      QueueGets(supervisors, assignment, q, done, name, j);
    }
  }

  lemma QueueGets(supervisors: seq<string>, assignment: map<string, multiset<string>>, q: nat, done: seq<string>,
      name: string, j: nat)
    requires NoDuplicates(supervisors) && q < |supervisors| && j < |supervisors|
    requires Queue(assignment, supervisors[j]) == AssignedTo(done, |supervisors|, q, j)
    ensures var e := supervisors[Position(|supervisors|, q, |done|)];
      Queue(assignment[e := Queue(assignment, e) + multiset{name}], supervisors[j])
        == AssignedTo(done + [name], |supervisors|, q, j)
  {
    var p := Position(|supervisors|, q, |done|);
    SameSupervisor(supervisors, j, p);
    QueueAfter(assignment, supervisors[p], name, supervisors[j]);
    OneMoreAssigned(done, name, |supervisors|, q, j);
  }

  lemma SameSupervisor(supervisors: seq<string>, i: nat, j: nat)
    requires NoDuplicates(supervisors) && i < |supervisors| && j < |supervisors|
    ensures supervisors[i] == supervisors[j] <==> i == j
  {
  }

  lemma OneMoreAssigned(done: seq<string>, name: string, n: nat, q: nat, j: nat)
    requires q < n
    ensures AssignedTo(done + [name], n, q, j) ==
            AssignedTo(done, n, q, j) + if Position(n, q, |done|) == j then multiset{name} else multiset{}
  {
    assert (done + [name])[..|done|] == done;
  }

  /** All others, in the order of the list. */
  function Others(members: seq<string>, self: string): seq<string> {
    if members == [] then []
    else
      var last := members[|members| - 1];
      Others(members[..|members| - 1], self) + if last != self then [last] else []
  }

  lemma {:induction false} OthersConcat(a: seq<string>, b: seq<string>, self: string)
    ensures Others(a + b, self) == Others(a, self) + Others(b, self)
  {
    if b == [] {
      assert a + b == a;
    } else {
      var s := a + b;
      assert s[..|s| - 1] == a + b[..|b| - 1] && s[|s| - 1] == b[|b| - 1];
      OthersConcat(a, b[..|b| - 1], self);
    }
  }

  lemma OthersOfOne(member: string, self: string)
    ensures Others([member], self) == if member == self then [] else [member]
  {
    assert [member][..0] == [];
  }

  class Nimbus {
    var executor: string
    var supervisors: seq<string>
    var topoSpecs: map<string, TopologySpec>
    var instances: Book
    var counters: Counters  // kept by the supervisors, one each

    ghost predicate Valid()
      reads this
    {
      AllHandedOut(counters, instances) && AllDifferent(instances)
    }

    constructor ()
      ensures Valid() && instances == map[] && executor == ""
    {
      executor, supervisors, topoSpecs, instances, counters := "", [], map[], map[], map[];
    }

    /** An unknown topology has an empty specification. */
    function GetTopoSpec(topoId: string): (spec: TopologySpec)
      reads this`topoSpecs
      ensures topoId !in topoSpecs ==> spec.boltSpecs == [] && spec.spoutSpecs == []
    {
      if topoId in topoSpecs then topoSpecs[topoId] else TopologySpec("", [], [], 3, true)
    }

    /** All members but the master itself, in the order of the membership list. */
    method UpdateSupervisors(members: seq<string>, self: string)
      modifies this`supervisors
      ensures supervisors == Others(members, self)
      ensures NoDuplicates(members) ==> NoDuplicates(supervisors)
      ensures forall m :: m in supervisors <==> m in members && m != self
    {
      var list := [];
      for i := 0 to |members|
        invariant list == Others(members[..i], self)
        invariant forall m :: m in list <==> m in members[..i] && m != self
        invariant NoDuplicates(members) ==> NoDuplicates(list)
      {
        assert members[..i + 1] == members[..i] + [members[i]];
        assert members[..i + 1][..i] == members[..i];
        if members[i] != self {
          assert NoDuplicates(members) ==> members[i] !in members[..i];
          list := list + [members[i]];
        }
      }
      assert members[..|members|] == members;
      supervisors := list;
    }

    method NextExecutor() returns (e: string)
      requires supervisors != []
      modifies this`executor
      ensures e == executor == supervisors[NextPosition(supervisors, old(executor))]
    {
      if executor == "" {
        executor := supervisors[0];
      } else {
        var pos := Find(supervisors, executor);
        executor := supervisors[(pos + 1) % |supervisors|];
      }
      e := executor;
    }

    method Place(assignment: map<string, multiset<string>>, name: string, ghost q: nat, ghost done: seq<string>)
      returns (after: map<string, multiset<string>>)
      requires NoDuplicates(supervisors) && "" !in supervisors && q < |supervisors|
      requires PlacedSoFar(supervisors, assignment, executor, q, done)
      modifies this`executor
      ensures PlacedSoFar(supervisors, after, executor, q, done + [name])
    {
      OnePlaced(supervisors, assignment, executor, q, done, name);
      var e := NextExecutor();
      after := assignment[e := Queue(assignment, e) + multiset{name}];
    }

    /** All instances of one bolt. */
    method PlaceBolt(assignment: map<string, multiset<string>>, bs: BoltSpec, ghost q: nat, ghost before: seq<string>)
      returns (after: map<string, multiset<string>>)
      requires NoDuplicates(supervisors) && "" !in supervisors && q < |supervisors|
      requires PlacedSoFar(supervisors, assignment, executor, q, before)
      modifies this`executor
      ensures PlacedSoFar(supervisors, after, executor, q, before + Repeat(bs.name, bs.paraLevel))
    {
      after := assignment;
      assert before + [] == before;
      var i := 0;
      while i < bs.paraLevel
        invariant 0 <= i && (i <= bs.paraLevel || i == 0)
        invariant PlacedSoFar(supervisors, after, executor, q, before + Repeat(bs.name, i))
      {
        after := Place(after, bs.name, q, before + Repeat(bs.name, i));
        Associative(before, Repeat(bs.name, i), [bs.name]);
        i := i + 1;
      }
      assert Repeat(bs.name, i) == Repeat(bs.name, bs.paraLevel);
    }

    /** Spouts once, bolts as often as their parallel level says, each to the next executor. */
    method Assign(spec: TopologySpec) returns (assignment: map<string, multiset<string>>)
      requires NoDuplicates(supervisors) && "" !in supervisors && supervisors != []
      modifies this`executor
      ensures PlacedSoFar(supervisors, assignment, executor, NextPosition(supervisors, old(executor)), Tasks(spec))
    {
      assignment := map[];
      ghost var q := NextPosition(supervisors, executor);
      for k := 0 to |spec.spoutSpecs|
        invariant PlacedSoFar(supervisors, assignment, executor, q, SpoutTasks(spec.spoutSpecs[..k]))
      {
        assert spec.spoutSpecs[..k + 1][..k] == spec.spoutSpecs[..k];
        assignment := Place(assignment, spec.spoutSpecs[k].name, q, SpoutTasks(spec.spoutSpecs[..k]));
      }
      assert spec.spoutSpecs[..|spec.spoutSpecs|] == spec.spoutSpecs;
      ghost var spouts := SpoutTasks(spec.spoutSpecs);
      assert spouts + [] == spouts;
      for k := 0 to |spec.boltSpecs|
        invariant PlacedSoFar(supervisors, assignment, executor, q, spouts + BoltTasks(spec.boltSpecs[..k]))
      {
        var bs := spec.boltSpecs[k];
        assert spec.boltSpecs[..k + 1][..k] == spec.boltSpecs[..k];
        assignment := PlaceBolt(assignment, bs, q, spouts + BoltTasks(spec.boltSpecs[..k]));
        Associative(spouts, BoltTasks(spec.boltSpecs[..k]), Repeat(bs.name, bs.paraLevel));
      }
      assert spec.boltSpecs[..|spec.boltSpecs|] == spec.boltSpecs;
    }

    /** The instances are distributed over the members besides the master. */
    method Distribute(spec: TopologySpec, members: seq<string>, self: string)
      returns (assignment: map<string, multiset<string>>)
      requires NoDuplicates(members) && "" !in members && exists m :: m in members && m != self
      modifies this`executor, this`supervisors
      ensures supervisors != [] && supervisors == Others(members, self) && NoDuplicates(supervisors)
      ensures QueuesAre(supervisors, assignment, NextPosition(supervisors, old(executor)), Tasks(spec))
    {
      UpdateSupervisors(members, self);
      assert supervisors != [] by {
        var m :| m in members && m != self;
        assert m in supervisors;
      }
      assignment := Assign(spec);
    }

    /** One ADD_WORKER exchange: the supervisor hands out ports, the master records them. */
    method AddWorkers(topoId: string, supervisor: string, request: Request)
      requires Valid()
      modifies this`instances, this`counters
      ensures Valid()
      ensures instances == WithInstances(old(instances), (topoId, request.name), supervisor,
                                         NextPort(old(counters), supervisor), request.count)
      ensures counters == old(counters)[supervisor := NextPort(old(counters), supervisor) + request.count]
    {
      var key := (topoId, request.name);
      var from := NextPort(counters, supervisor);
      RecordingKeepsDifferent(instances, counters, key, supervisor, request.count);
      RecordingKeepsHandedOut(instances, counters, key, supervisor, request.count);
      instances := WithInstances(instances, key, supervisor, from, request.count);
      counters := counters[supervisor := from + request.count];
    }

    /** All requests to one supervisor. */
    method StartWorkers(topoId: string, supervisor: string, requests: seq<Request>)
      requires Valid()
      modifies this`instances, this`counters
      ensures Valid()
      ensures StartedAt(old(instances), instances, old(counters), counters, topoId, supervisor, requests)
    {
      NothingStarted(instances, counters, topoId, supervisor);
      for k := 0 to |requests|
        invariant Valid()
        invariant StartedAt(old(instances), instances, old(counters), counters, topoId, supervisor, requests[..k])
      {
        ghost var mid, now := instances, counters;
        AddWorkers(topoId, supervisor, requests[k]);
        OneMoreStarted(old(instances), mid, instances, old(counters), now, counters, topoId, supervisor, requests, k);
      }
      assert requests[..|requests|] == requests;
    }

    /** The requests to the supervisor at position j. */
    method StartGroup(topoId: string, supervisor: string, queue: multiset<string>, ghost before: Book,
        ghost ports: Counters, ghost tasks: seq<string>, ghost n: nat, ghost q: nat, ghost j: nat)
      returns (group: seq<Request>)
      requires Valid() && NoDuplicates(supervisors) && n == |supervisors| && q < n && j < n
      requires supervisor == supervisors[j] && queue == AssignedTo(tasks, n, q, j)
      requires Settled(before, instances, ports, counters, topoId, supervisors, tasks, q, j)
      modifies this`instances, this`counters
      ensures Valid() && Grouped(group, queue)
      ensures Settled(before, instances, ports, counters, topoId, supervisors, tasks, q, j + 1)
    {
      ghost var mid, now := instances, counters;
      group := GroupRuns(queue);
      StartWorkers(topoId, supervisor, group);
      OneMoreSettled(before, mid, instances, ports, now, counters, topoId, supervisors, tasks, q, j, group);
    }

    /** The requests to all supervisors, one after the other. */
    method StartAll(topoId: string, assignment: map<string, multiset<string>>, ghost q: nat, ghost tasks: seq<string>)
      returns (requests: seq<seq<Request>>)
      requires Valid() && NoDuplicates(supervisors)
      requires q < |supervisors| && QueuesAre(supervisors, assignment, q, tasks)
      modifies this`instances, this`counters
      ensures Valid()
      ensures RequestsFit(requests, tasks, |supervisors|, q, |supervisors|)
      ensures Settled(old(instances), instances, old(counters), counters, topoId, supervisors, tasks, q, |supervisors|)
    {
      requests := [];
      NothingSettled(instances, counters, topoId, supervisors, tasks, q);
      for j := 0 to |supervisors|
        invariant Valid()
        invariant RequestsFit(requests, tasks, |supervisors|, q, j)
        invariant Settled(old(instances), instances, old(counters), counters, topoId, supervisors, tasks, q, j)
      {
        var queue := Queue(assignment, supervisors[j]);
        assert queue == AssignedTo(tasks, |supervisors|, q, j);
        var group :=
          StartGroup(topoId, supervisors[j], queue, old(instances), old(counters), tasks, |supervisors|, q, j);
        OneMoreFits(requests, group, tasks, |supervisors|, q, j);
        requests := requests + [group];
      }
    }

    /** prepareTopology up to the point where all workers have been created.  Each supervisor gets
        one request per name it has instances of, and the new instances are recorded at the
        supervisors they are placed at, with their next ports; every name ends up with as many more
        recorded instances as the specification asks for; nothing else is touched; and no two
        recorded instances, of any topologies and calls, have the same address.  Some member besides the
        master must exist, or the first placement would look into an empty list. */
    method PrepareTopology(topoId: string, members: seq<string>, self: string) returns (requests: seq<seq<Request>>)
      requires Valid()
      requires NoDuplicates(members) && "" !in members && exists m :: m in members && m != self
      modifies this`executor, this`supervisors, this`instances, this`counters
      ensures Valid() && supervisors != [] && supervisors == Others(members, self)
      ensures GrownAsWanted(old(instances), instances, topoId, GetTopoSpec(topoId))
      ensures OthersUnchanged(old(instances), instances, topoId)
      ensures RequestsFit(requests, Tasks(GetTopoSpec(topoId)), |supervisors|,
          NextPosition(supervisors, old(executor)), |supervisors|)
      ensures Settled(old(instances), instances, old(counters), counters, topoId, supervisors,
          Tasks(GetTopoSpec(topoId)), NextPosition(supervisors, old(executor)), |supervisors|)
    {
      var spec := GetTopoSpec(topoId);
      var assignment := Distribute(spec, members, self);
      ghost var q := NextPosition(supervisors, old(executor));
      requests := StartAll(topoId, assignment, q, Tasks(spec));
      AllSettled(old(instances), instances, old(counters), counters, topoId, supervisors, spec, q);
    }

    /** Stopping forgets the instances; the ports are not reused. */
    method StopTopology(topoId: string)
      requires Valid()
      modifies this`instances
      ensures Valid() && OthersUnchanged(old(instances), instances, topoId)
      ensures forall name :: Recorded(instances, (topoId, name)) == []
    {
      instances := map k | k in instances && k.0 != topoId :: instances[k];
    }
  }

  /** The first m positions have been sent one request for every name placed there, largest name first. */
  ghost predicate RequestsFit(requests: seq<seq<Request>>, tasks: seq<string>, n: nat, q: nat, m: nat)
    requires q < n
  {
    |requests| == m && forall j :: 0 <= j < m ==> Grouped(requests[j], AssignedTo(tasks, n, q, j))
  }

  lemma OneMoreFits(requests: seq<seq<Request>>, group: seq<Request>, tasks: seq<string>, n: nat, q: nat, m: nat)
    requires q < n && RequestsFit(requests, tasks, n, q, m) && Grouped(group, AssignedTo(tasks, n, q, m))
    ensures RequestsFit(requests + [group], tasks, n, q, m + 1)
  {
  }

  /** Instances recorded since `before` under each name of a topology: as many as requested... */
  ghost predicate GrownBy(before: Book, after: Book, topoId: string, requests: seq<Request>) {
    forall name :: |Recorded(after, (topoId, name))| == |Recorded(before, (topoId, name))| + Requested(requests, name)
  }

  /** ... as many as are placed at the first m positions... */
  ghost predicate GrownUpTo(before: Book, after: Book, topoId: string, tasks: seq<string>, n: nat, q: nat, m: nat)
    requires q < n
  {
    forall name :: |Recorded(after, (topoId, name))| == |Recorded(before, (topoId, name))| + Total(tasks, n, q, m, name)
  }

  /** ... as many as the specification asks for. */
  ghost predicate GrownAsWanted(before: Book, after: Book, topoId: string, spec: TopologySpec) {
    forall name :: |Recorded(after, (topoId, name))| == |Recorded(before, (topoId, name))| +
      WantedSpouts(spec.spoutSpecs, name) + WantedBolts(spec.boltSpecs, name)
  }

  lemma StillUnchanged(before: Book, mid: Book, topoId: string, s: string, from: nat, request: Request)
    requires OthersUnchanged(before, mid, topoId)
    ensures OthersUnchanged(before, WithInstances(mid, (topoId, request.name), s, from, request.count), topoId)
  {
  }

  lemma StartedIsGrown(before: Book, after: Book, topoId: string, s: string, requests: seq<Request>, low: nat,
      high: nat)
    requires BookStarted(before, after, topoId, s, requests, low, high)
    ensures GrownBy(before, after, topoId, requests)
  {
  }

  lemma OneMoreSupervisor(before: Book, mid: Book, after: Book, topoId: string, tasks: seq<string>, n: nat, q: nat,
      j: nat, group: seq<Request>)
    requires q < n && GrownUpTo(before, mid, topoId, tasks, n, q, j)
    requires GrownBy(mid, after, topoId, group) && OneRequestEach(group, AssignedTo(tasks, n, q, j))
    ensures GrownUpTo(before, after, topoId, tasks, n, q, j + 1)
  {
    forall name ensures Total(tasks, n, q, j + 1, name) == Total(tasks, n, q, j, name) + Requested(group, name) {
    }
  }

  lemma AllGrown(before: Book, after: Book, topoId: string, spec: TopologySpec, n: nat, q: nat)
    requires q < n && GrownUpTo(before, after, topoId, Tasks(spec), n, q, n)
    ensures GrownAsWanted(before, after, topoId, spec)
  {
    forall name ensures Total(Tasks(spec), n, q, n, name)
        == WantedSpouts(spec.spoutSpecs, name) + WantedBolts(spec.boltSpecs, name) {
      AllTasksAreAssigned(Tasks(spec), n, q, name);
      TasksCounted(spec, name);
    }
  }

  /** For example, the first two instances at a supervisor that has started nothing yet. */
  lemma FirstAddresses(s: string)
    ensures AddressesOf(s, Ports(NextPort(map[], s), 2)) == ["tcp://" + s + ":3000", "tcp://" + s + ":3001"]
  {
    assert Decimal(300) == "300" by {
      DecimalDigits(3, 0);
      DecimalDigits(30, 0);
      DecimalDigits(0, 3);
    }
    DecimalDigits(300, 0);
    DecimalDigits(300, 1);
    assert MakeAddr(s, 3000) == "tcp://" + s + ":3000";
    assert MakeAddr(s, 3001) == "tcp://" + s + ":3001";
  }

  /** What position j has been asked for once the first m positions have been asked. */
  function Share(tasks: seq<string>, n: nat, q: nat, m: nat, j: nat): multiset<string>
    requires q < n
  {
    if j < m then AssignedTo(tasks, n, q, j) else multiset{}
  }

  /** The instances started at the first m supervisors are where they have been placed: of every name
      each supervisor has as many new addresses as it has been assigned, with its next ports, and
      nobody else has any. */
  ghost predicate Settled(before: Book, after: Book, counters: Counters, later: Counters, topoId: string,
      supervisors: seq<string>, tasks: seq<string>, q: nat, m: nat)
    requires q < |supervisors|
  {
    && CountersSettled(counters, later, supervisors, tasks, q, m)
    && BookSettled(before, after, counters, later, topoId, supervisors, tasks, q, m)
    && GrownUpTo(before, after, topoId, tasks, |supervisors|, q, m)
    && OthersUnchanged(before, after, topoId)
  }

  /** Every supervisor has handed out one port for each of its instances. */
  ghost predicate CountersSettled(counters: Counters, later: Counters, supervisors: seq<string>, tasks: seq<string>,
      q: nat, m: nat)
    requires q < |supervisors|
  {
    && (forall j :: 0 <= j < |supervisors| ==>
          NextPort(later, supervisors[j]) ==
          NextPort(counters, supervisors[j]) + |Share(tasks, |supervisors|, q, m, j)|)
    && StrangersKeep(counters, later, supervisors)
  }

  ghost predicate StrangersKeep(counters: Counters, later: Counters, supervisors: seq<string>) {
    forall s :: s !in supervisors ==> NextPort(later, s) == NextPort(counters, s)
  }

  ghost predicate BookSettled(before: Book, after: Book, counters: Counters, later: Counters, topoId: string,
      supervisors: seq<string>, tasks: seq<string>, q: nat, m: nat)
    requires q < |supervisors|
  {
    forall name :: NameSettled(Recorded(before, (topoId, name)), Recorded(after, (topoId, name)), counters, later,
                               supervisors, tasks, q, m, name)
  }

  ghost predicate NameSettled(before: seq<string>, after: seq<string>, counters: Counters, later: Counters,
      supervisors: seq<string>, tasks: seq<string>, q: nat, m: nat, name: string)
    requires q < |supervisors|
  {
    && before <= after
    && SharesAre(after[|before|..], supervisors, tasks, q, m, name)
    && AllAmong(after[|before|..], counters, later, supervisors)
  }

  ghost predicate SharesAre(added: seq<string>, supervisors: seq<string>, tasks: seq<string>, q: nat, m: nat,
      name: string)
    requires q < |supervisors|
  {
    forall j :: 0 <= j < |supervisors| ==>
      CountAt(added, supervisors[j]) == Share(tasks, |supervisors|, q, m, j)[name]
  }

  /** Every address is at one of the supervisors, with one of the ports it has handed out since. */
  ghost predicate AllAmong(added: seq<string>, counters: Counters, later: Counters, supervisors: seq<string>) {
    forall i :: 0 <= i < |added| ==> HostedAmong(added[i], counters, later, supervisors)
  }

  ghost predicate HostedAmong(address: string, counters: Counters, later: Counters, supervisors: seq<string>) {
    exists j :: 0 <= j < |supervisors| &&
      HostedAt(address, supervisors[j], NextPort(counters, supervisors[j]), NextPort(later, supervisors[j]))
  }

  lemma AllSettled(before: Book, after: Book, counters: Counters, later: Counters, topoId: string,
      supervisors: seq<string>, spec: TopologySpec, q: nat)
    requires q < |supervisors|
    requires Settled(before, after, counters, later, topoId, supervisors, Tasks(spec), q, |supervisors|)
    ensures GrownAsWanted(before, after, topoId, spec) && OthersUnchanged(before, after, topoId)
  {
    AllGrown(before, after, topoId, spec, |supervisors|, q);
  }

  /** Requests to the next supervisor add its instances. */
  lemma OneMoreSettled(before: Book, mid: Book, after: Book, counters: Counters, now: Counters, later: Counters,
      topoId: string, supervisors: seq<string>, tasks: seq<string>, q: nat, j: nat, group: seq<Request>)
    requires NoDuplicates(supervisors) && q < |supervisors| && j < |supervisors|
    requires Settled(before, mid, counters, now, topoId, supervisors, tasks, q, j)
    requires StartedAt(mid, after, now, later, topoId, supervisors[j], group)
    requires OneRequestEach(group, AssignedTo(tasks, |supervisors|, q, j))
    requires Instances(group) == |AssignedTo(tasks, |supervisors|, q, j)|
    ensures Settled(before, after, counters, later, topoId, supervisors, tasks, q, j + 1)
  {
    OneMoreMoved(counters, now, later, supervisors, tasks, q, j);
    StartedIsGrown(mid, after, topoId, supervisors[j], group, NextPort(now, supervisors[j]),
      NextPort(later, supervisors[j]));
    OneMoreSupervisor(before, mid, after, topoId, tasks, |supervisors|, q, j, group);
    OneMoreBook(before, mid, after, counters, now, later, topoId, supervisors, tasks, q, j, group);
  }

  lemma OneMoreBook(before: Book, mid: Book, after: Book, counters: Counters, now: Counters, later: Counters,
      topoId: string, supervisors: seq<string>, tasks: seq<string>, q: nat, j: nat, group: seq<Request>)
    requires NoDuplicates(supervisors) && q < |supervisors| && j < |supervisors|
    requires BookSettled(before, mid, counters, now, topoId, supervisors, tasks, q, j)
    requires BookStarted(mid, after, topoId, supervisors[j], group, NextPort(now, supervisors[j]),
                         NextPort(later, supervisors[j]))
    requires NextPort(now, supervisors[j]) == NextPort(counters, supervisors[j]) && NoneLower(now, later, supervisors)
    requires OneRequestEach(group, AssignedTo(tasks, |supervisors|, q, j))
    ensures BookSettled(before, after, counters, later, topoId, supervisors, tasks, q, j + 1)
  {
    forall name
      ensures NameSettled(Recorded(before, (topoId, name)), Recorded(after, (topoId, name)), counters, later,
                          supervisors, tasks, q, j + 1, name)
    {
      assert Requested(group, name) == AssignedTo(tasks, |supervisors|, q, j)[name];
      OneMoreNameSettled(Recorded(before, (topoId, name)), Recorded(mid, (topoId, name)),
        Recorded(after, (topoId, name)), counters, now, later, supervisors, tasks, q, j, name);
    }
  }

  lemma OneMoreMoved(counters: Counters, now: Counters, later: Counters, supervisors: seq<string>,
      tasks: seq<string>, q: nat, j: nat)
    requires NoDuplicates(supervisors) && q < |supervisors| && j < |supervisors|
    requires CountersSettled(counters, now, supervisors, tasks, q, j)
    requires CountersMoved(now, later, supervisors[j], |AssignedTo(tasks, |supervisors|, q, j)|)
    ensures NextPort(now, supervisors[j]) == NextPort(counters, supervisors[j]) && NoneLower(now, later, supervisors)
    ensures CountersSettled(counters, later, supervisors, tasks, q, j + 1)
  {
    forall i | 0 <= i < |supervisors|
      ensures NextPort(later, supervisors[i]) ==
              NextPort(counters, supervisors[i]) + |Share(tasks, |supervisors|, q, j + 1, i)|
    {
      OneMoved(counters, now, later, supervisors, tasks, q, j, i);
    }
    StrangersStillKeep(counters, now, later, supervisors, supervisors[j], |AssignedTo(tasks, |supervisors|, q, j)|);
  }

  lemma StrangersStillKeep(counters: Counters, now: Counters, later: Counters, supervisors: seq<string>, s: string,
      count: nat)
    requires StrangersKeep(counters, now, supervisors) && CountersMoved(now, later, s, count) && s in supervisors
    ensures StrangersKeep(counters, later, supervisors) && NoneLower(now, later, supervisors)
  {
  }

  lemma OneMoved(counters: Counters, now: Counters, later: Counters, supervisors: seq<string>, tasks: seq<string>,
      q: nat, j: nat, i: nat)
    requires NoDuplicates(supervisors) && q < |supervisors| && j < |supervisors| && i < |supervisors|
    requires NextPort(now, supervisors[i]) ==
             NextPort(counters, supervisors[i]) + |Share(tasks, |supervisors|, q, j, i)|
    requires CountersMoved(now, later, supervisors[j], |AssignedTo(tasks, |supervisors|, q, j)|)
    ensures NextPort(later, supervisors[i]) ==
            NextPort(counters, supervisors[i]) + |Share(tasks, |supervisors|, q, j + 1, i)|
  {
    SameSupervisor(supervisors, i, j);
  }

  lemma OneMoreNameSettled(before: seq<string>, mid: seq<string>, after: seq<string>, counters: Counters,
      now: Counters, later: Counters, supervisors: seq<string>, tasks: seq<string>, q: nat, j: nat, name: string)
    requires NoDuplicates(supervisors) && q < |supervisors| && j < |supervisors|
    requires NameSettled(before, mid, counters, now, supervisors, tasks, q, j, name)
    requires AddedAt(mid, after, supervisors[j], AssignedTo(tasks, |supervisors|, q, j)[name],
                     NextPort(now, supervisors[j]), NextPort(later, supervisors[j]))
    requires NextPort(now, supervisors[j]) == NextPort(counters, supervisors[j])
    requires NoneLower(now, later, supervisors)
    ensures NameSettled(before, after, counters, later, supervisors, tasks, q, j + 1, name)
  {
    var had, added := mid[|before|..], after[|mid|..];
    Suffixes(before, mid, after);
    OneMoreShare(had, added, supervisors, tasks, q, j, name, NextPort(now, supervisors[j]),
      NextPort(later, supervisors[j]));
    OneMoreAmong(had, added, counters, now, later, supervisors, j);
  }

  lemma Suffixes(a: seq<string>, b: seq<string>, c: seq<string>)
    requires a <= b <= c
    ensures a <= c && c[|a|..] == b[|a|..] + c[|b|..]
  {
  }

  /** No supervisor's port counter has gone back. */
  ghost predicate NoneLower(now: Counters, later: Counters, supervisors: seq<string>) {
    forall i :: 0 <= i < |supervisors| ==> NextPort(now, supervisors[i]) <= NextPort(later, supervisors[i])
  }

  lemma OneMoreShare(had: seq<string>, added: seq<string>, supervisors: seq<string>, tasks: seq<string>, q: nat,
      j: nat, name: string, low: nat, high: nat)
    requires NoDuplicates(supervisors) && q < |supervisors| && j < |supervisors|
    requires SharesAre(had, supervisors, tasks, q, j, name)
    requires AllHosted(added, supervisors[j], low, high)
    requires |added| == AssignedTo(tasks, |supervisors|, q, j)[name]
    ensures SharesAre(had + added, supervisors, tasks, q, j + 1, name)
  {
    forall i | 0 <= i < |supervisors|
      ensures CountAt(had + added, supervisors[i]) == Share(tasks, |supervisors|, q, j + 1, i)[name]
    {
      CountAtConcat(had, added, supervisors[i]);
      HostedCounted(added, supervisors[j], low, high, supervisors[i]);
      SameSupervisor(supervisors, i, j);
    }
  }

  lemma OneMoreAmong(had: seq<string>, added: seq<string>, counters: Counters, now: Counters, later: Counters,
      supervisors: seq<string>, j: nat)
    requires j < |supervisors| && AllAmong(had, counters, now, supervisors)
    requires AllHosted(added, supervisors[j], NextPort(counters, supervisors[j]), NextPort(later, supervisors[j]))
    requires NoneLower(now, later, supervisors)
    ensures AllAmong(had + added, counters, later, supervisors)
  {
    forall i | 0 <= i < |had + added| ensures HostedAmong((had + added)[i], counters, later, supervisors) {
      if i < |had| {
        StillAmong(had[i], counters, now, later, supervisors);
      } else {
        assert HostedAt(added[i - |had|], supervisors[j], NextPort(counters, supervisors[j]),
                        NextPort(later, supervisors[j]));
      }
    }
  }

  lemma StillAmong(address: string, counters: Counters, now: Counters, later: Counters, supervisors: seq<string>)
    requires HostedAmong(address, counters, now, supervisors)
    requires NoneLower(now, later, supervisors)
    ensures HostedAmong(address, counters, later, supervisors)
  {
    var j :| 0 <= j < |supervisors| &&
      HostedAt(address, supervisors[j], NextPort(counters, supervisors[j]), NextPort(now, supervisors[j]));
    HostedLonger(address, supervisors[j], NextPort(counters, supervisors[j]), NextPort(now, supervisors[j]),
      NextPort(counters, supervisors[j]), NextPort(later, supervisors[j]));
  }

  lemma NothingSettled(before: Book, counters: Counters, topoId: string, supervisors: seq<string>,
      tasks: seq<string>, q: nat)
    requires q < |supervisors|
    ensures Settled(before, before, counters, counters, topoId, supervisors, tasks, q, 0)
  {
  }

  ghost predicate OthersUnchanged(before: Book, after: Book, topoId: string) {
    forall k: (string, string) :: k.0 != topoId ==> Recorded(after, k) == Recorded(before, k)
  }

  /** The numbers of instances that two supervisors get of one topology differ by at most one. */
  lemma PlacementIsBalanced(supervisors: seq<string>, executor: string, tasks: seq<string>, i: nat, j: nat)
    requires i < |supervisors| && j < |supervisors|
    ensures var q := NextPosition(supervisors, executor);
      -1 <= |AssignedTo(tasks, |supervisors|, q, i)| - |AssignedTo(tasks, |supervisors|, q, j)| <= 1
  {
    var q := NextPosition(supervisors, executor);
    AssignedIsLoad(tasks, |supervisors|, q, i);
    AssignedIsLoad(tasks, |supervisors|, q, j);
    LoadsDifferByOne(supervisors, executor, |tasks|, i, j);
  }
}
