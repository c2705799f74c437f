/** Connecting the workers: from the master's tree and its list of instances to the connections of
    every worker. */
module Connections {
  import opened Collections
  import opened Topology
  import opened Placement
  import opened NimbusCode
  import B = Builder
  import R = Routing
  import W = Wire

  datatype WorkerConnection = WorkerConnection(topoId: string, name: string, groups: seq<Group>)

  /** The connection groups of the instances of one name. */
  function Groups(tree: W.Tree, book: Book, topoId: string, name: string): seq<Group> {
    var children := W.Entries(tree, name);
    seq(|children|, i requires 0 <= i < |children| =>
      Group(children[i].0, children[i].1, Recorded(book, (topoId, children[i].0))))
  }

  /** The part of prepareTopology that fills the CONFIG_CONNS message. */
  method ConnectionConfig(topoId: string, tree: W.Tree, book: Book) returns (config: seq<WorkerConnection>)
    ensures ConfigOf(config, topoId, tree, book)
  {
    var names := B.SortedKeys(tree.Keys);
    config := [];
    for k := 0 to |names|
      invariant |config| == k
      invariant forall j :: 0 <= j < k ==>
          config[j] == WorkerConnection(topoId, names[j], Groups(tree, book, topoId, names[j]))
    {
      var children := W.Entries(tree, names[k]);
      var groups: seq<Group> := [];
      for i := 0 to |children|
        invariant groups == Groups(tree, book, topoId, names[k])[..i]
      {
        groups := groups + [Group(children[i].0, children[i].1, Recorded(book, (topoId, children[i].0)))];
      }
      assert groups == Groups(tree, book, topoId, names[k]);
      config := config + [WorkerConnection(topoId, names[k], groups)];
    }
    assert NamesOf(config) == names;
  }

  function NamesOf(config: seq<WorkerConnection>): seq<string> {
    seq(|config|, i requires 0 <= i < |config| => config[i].name)
  }

  /** One entry for every name in the tree. */
  ghost predicate ConfigOf(config: seq<WorkerConnection>, topoId: string, tree: W.Tree, book: Book) {
    && NoDuplicates(NamesOf(config)) && (forall name :: name in NamesOf(config) <==> name in tree)
    && forall k :: 0 <= k < |config| ==>
        config[k] == WorkerConnection(topoId, config[k].name, Groups(tree, book, topoId, config[k].name))
  }

  lemma DistinctIds(topoId: string, name: string, name': string)
    ensures CreateWorkerId(topoId, name) == CreateWorkerId(topoId, name') <==> name == name'
  {
    SameWorkerId(topoId, name, topoId, name');
    assert (topoId + name)[|topoId|..] == name && (topoId + name')[|topoId|..] == name';
  }

  /** What a supervisor's workers are after the message. */
  function AllReconnected(workersMap: map<string, seq<Worker>>, config: seq<WorkerConnection>)
    : map<string, seq<Worker>>
  {
    if config == [] then workersMap
    else
      var last := config[|config| - 1];
      Reconnected(AllReconnected(workersMap, config[..|config| - 1]), last.topoId, last.name, last.groups)
  }

  /** A supervisor handles the message. */
  method HandleConfig(s: Supervisor, config: seq<WorkerConnection>)
    modifies s`workersMap
    ensures s.workersMap == AllReconnected(old(s.workersMap), config)
  {
    for k := 0 to |config|
      invariant s.workersMap == AllReconnected(old(s.workersMap), config[..k])
    {
      assert config[..k + 1][..k] == config[..k];
      var groups := Relay(config[k].groups);
      s.ConfigureConnections(config[k].topoId, config[k].name, groups);
    }
    assert config[..|config|] == config;
  }

  ghost predicate HaveGroups(workers: seq<Worker>, groups: seq<Group>) {
    forall i :: 0 <= i < |workers| ==> workers[i].groups == groups
  }

  ghost predicate AllConfigured(workersMap: map<string, seq<Worker>>, topoId: string, config: seq<WorkerConnection>) {
    forall k :: 0 <= k < |config| && CreateWorkerId(topoId, config[k].name) in workersMap ==>
      HaveGroups(workersMap[CreateWorkerId(topoId, config[k].name)], config[k].groups)
  }

  /** In the end every worker of a listed name, wherever it runs, has exactly the groups listed for
      that name. */
  lemma {:induction false} ListedWorkersAreConfigured(before: map<string, seq<Worker>>, topoId: string,
      config: seq<WorkerConnection>)
    requires NoDuplicates(NamesOf(config)) && forall k :: 0 <= k < |config| ==> config[k].topoId == topoId
    ensures AllConfigured(AllReconnected(before, config), topoId, config)
    ensures AllReconnected(before, config).Keys == before.Keys
    decreases |config|
  {
    if config != [] {
      var n := |config| - 1;
      assert NamesOf(config)[..n] == NamesOf(config[..n]);
      ListedWorkersAreConfigured(before, topoId, config[..n]);
      OneMoreConfigured(AllReconnected(before, config[..n]), AllReconnected(before, config), topoId, config, n);
      assert config[..n + 1] == config;
    }
  }

  lemma OneMoreConfigured(before: map<string, seq<Worker>>, after: map<string, seq<Worker>>, topoId: string,
      config: seq<WorkerConnection>, k: nat)
    requires k < |config| && NoDuplicates(NamesOf(config)) && AllConfigured(before, topoId, config[..k])
    requires after == Reconnected(before, topoId, config[k].name, config[k].groups)
    ensures AllConfigured(after, topoId, config[..k + 1])
  {
    forall j | 0 <= j <= k && CreateWorkerId(topoId, config[j].name) in after
      ensures HaveGroups(after[CreateWorkerId(topoId, config[j].name)], config[j].groups)
    {
      DistinctIds(topoId, config[j].name, config[k].name);
      assert NamesOf(config)[j] == config[j].name && NamesOf(config)[k] == config[k].name;
      if j < k {
        assert config[..k][j] == config[j];
      }
    }
  }

  /** Where a worker with these groups sends a tuple with the given key, for its i-th child. */
  function FieldAddress(groups: seq<Group>, i: nat, key: string): string
    requires i < |groups| && groups[i].addresses != []
  {
    groups[i].addresses[R.Home(key, |groups[i].addresses|)]
  }

  /** The workers that a supervisor has for one name of one topology. */
  function Under(workersMap: map<string, seq<Worker>>, topoId: string, name: string): seq<Worker> {
    var id := CreateWorkerId(topoId, name);
    if id in workersMap then workersMap[id] else []
  }

  /** One key, one instance: whatever the workers of a name were connected to before the message, and
      whichever supervisors they run under, they all send a key to the same recorded instance of the
      child afterwards. */
  lemma SendersAgree(config: seq<WorkerConnection>, topoId: string, tree: W.Tree, book: Book, k: nat, i: nat,
      key: string, a: map<string, seq<Worker>>, b: map<string, seq<Worker>>, m: nat, n: nat)
    requires ConfigOf(config, topoId, tree, book) && k < |config| && i < |W.Entries(tree, config[k].name)|
    requires m < |Under(AllReconnected(a, config), topoId, config[k].name)|
    requires n < |Under(AllReconnected(b, config), topoId, config[k].name)|
    requires Recorded(book, (topoId, W.Entries(tree, config[k].name)[i].0)) != []
    ensures var u := Under(AllReconnected(a, config), topoId, config[k].name)[m].groups;
      var v := Under(AllReconnected(b, config), topoId, config[k].name)[n].groups;
      var instances := Recorded(book, (topoId, W.Entries(tree, config[k].name)[i].0));
      && i < |u| == |v| && u[i].addresses == v[i].addresses == instances
      && (u[i].childName, u[i].grouping) == (v[i].childName, v[i].grouping) == W.Entries(tree, config[k].name)[i]
      && FieldAddress(u, i, key) == FieldAddress(v, i, key) == instances[R.Home(key, |instances|)]
  {
    assert config[k] == WorkerConnection(topoId, config[k].name, Groups(tree, book, topoId, config[k].name));
    ListedWorkersAreConfigured(a, topoId, config);
    ListedWorkersAreConfigured(b, topoId, config);
    assert HaveGroups(Under(AllReconnected(a, config), topoId, config[k].name), config[k].groups);
    assert HaveGroups(Under(AllReconnected(b, config), topoId, config[k].name), config[k].groups);
  }

  /** The connection lists are never empty: what the tree lists as a child is a bolt of the
      specification, and a bolt that has come over the wire has at least three instances. */
  lemma NoEmptyConnection(before: Book, book: Book, topoId: string, sent: TopologySpec, p: string, i: nat)
    requires var spec := W.Parsed(W.Encoded(sent));
      GrownAsWanted(before, book, topoId, spec) && i < |W.ChildrenFrom(spec.boltSpecs, p)|
    ensures |Recorded(book, (topoId, W.ChildrenFrom(W.Parsed(W.Encoded(sent)).boltSpecs, p)[i].0))| >= 3
  {
    var spec := W.Parsed(W.Encoded(sent));
    W.SpecRoundTrip(sent);
    var c := ChildIsBolt(spec.boltSpecs, p, i);
    WantedAtLeast(spec.boltSpecs, c);
  }

  lemma {:induction false} ChildIsBolt(bolts: seq<BoltSpec>, p: string, i: nat) returns (k: nat)
    requires i < |W.ChildrenFrom(bolts, p)|
    ensures k < |bolts| && bolts[k].name == W.ChildrenFrom(bolts, p)[i].0
  {
    var before, bs := bolts[..|bolts| - 1], bolts[|bolts| - 1];
    if i < |W.ChildrenFrom(before, p)| {
      k := ChildIsBolt(before, p, i);
    } else {
      k := |bolts| - 1;
      EntriesNameTheChild(bs.parents, bs.name, p);
    }
  }

  lemma {:induction false} EntriesNameTheChild(parents: seq<(string, string)>, c: string, p: string)
    ensures forall e :: e in W.ChildEntries(parents, c, p) ==> e.0 == c
  {
    if parents != [] {
      EntriesNameTheChild(parents[..|parents| - 1], c, p);
    }
  }

  lemma {:induction false} WantedAtLeast(bolts: seq<BoltSpec>, k: nat)
    requires k < |bolts| && bolts[k].paraLevel > 0
    ensures WantedBolts(bolts, bolts[k].name) >= bolts[k].paraLevel
  {
    if k < |bolts| - 1 {
      WantedAtLeast(bolts[..|bolts| - 1], k);
    }
  }

  /** New workers come last, with the ports handed out and no connections... */
  lemma AddedComeLast(w: map<string, seq<Worker>>, topo: string, name: string, ports: seq<nat>)
    ensures Under(Added(w, topo, name, ports), topo, name) == Under(w, topo, name) + Started(ports)
    ensures |Started(ports)| == |ports|
    ensures forall i :: 0 <= i < |ports| ==> Started(ports)[i].port == ports[i] && Started(ports)[i].groups == []
  {
  }

  /** ... configuring replaces the connections and keeps the ports... */
  lemma ConfiguredKeepPorts(w: map<string, seq<Worker>>, topo: string, name: string, groups: seq<Group>, i: nat)
    ensures var before, after := Under(w, topo, name), Under(Reconnected(w, topo, name, groups), topo, name);
      |after| == |before| && (i < |before| ==> after[i].port == before[i].port && after[i].groups == groups)
  {
  }

  /** ... and killing leaves none. */
  lemma KilledAreGone(w: map<string, seq<Worker>>, topo: string, name: string)
    ensures Under(Killed(w, topo, name), topo, name) == []
  {
  }

  // ---- across topologies ----

  // A worker is found by the concatenation of the two names, so starting, killing or connecting one
  // topology can change the workers of another.  It leaves them alone, whatever runs, if and only if
  // the concatenations differ.

  ghost predicate KillSpares(topo: string, name: string, topo': string, name': string) {
    forall w :: Under(Killed(w, topo, name), topo', name') == Under(w, topo', name')
  }

  ghost predicate AddSpares(topo: string, name: string, ports: seq<nat>, topo': string, name': string) {
    forall w :: Under(Added(w, topo, name, ports), topo', name') == Under(w, topo', name')
  }

  ghost predicate ConfigSpares(config: seq<WorkerConnection>, topo': string, name': string) {
    forall w :: Under(AllReconnected(w, config), topo', name') == Under(w, topo', name')
  }

  lemma KillReachesOthersExactly(topo: string, name: string, topo': string, name': string)
    ensures KillSpares(topo, name, topo', name') <==> topo + name != topo' + name'
  {
    SameWorkerId(topo, name, topo', name');
    if topo + name == topo' + name' {
      var w := map[CreateWorkerId(topo', name') := [Worker(0, [])]];
      assert Under(Killed(w, topo, name), topo', name') != Under(w, topo', name');
    }
  }

  lemma AddReachesOthersExactly(topo: string, name: string, ports: seq<nat>, topo': string, name': string)
    ensures AddSpares(topo, name, ports, topo', name') <==> ports == [] || topo + name != topo' + name'
  {
    SameWorkerId(topo, name, topo', name');
    if ports != [] && topo + name == topo' + name' {
      assert |Under(Added(map[], topo, name, ports), topo', name')| != |Under(map[], topo', name')|;
    }
  }

  predicate Names(entry: WorkerConnection, topo': string, name': string) {
    entry.topoId + entry.name == topo' + name'
  }

  lemma ConfigReachesOthersExactly(config: seq<WorkerConnection>, topo': string, name': string)
    ensures ConfigSpares(config, topo', name') <==>
            forall k :: 0 <= k < |config| ==> !Names(config[k], topo', name')
  {
    if k :| 0 <= k < |config| && Names(config[k], topo', name') {
      var last := LastNamed(config, topo', name', k);
      var other := config[last].groups + [Group("", "", [])];
      var w := map[CreateWorkerId(topo', name') := [Worker(0, other)]];
      LastDecides(w, config, topo', name', last);
      assert Under(AllReconnected(w, config), topo', name') == Configured([Worker(0, other)], config[last].groups);
      assert Configured([Worker(0, other)], config[last].groups)[0].groups != other;
    } else {
      forall w ensures Under(AllReconnected(w, config), topo', name') == Under(w, topo', name') {
        UnnamedStay(w, config, topo', name');
      }
    }
  }

  lemma {:induction false} UnnamedStay(w: map<string, seq<Worker>>, config: seq<WorkerConnection>, topo': string,
      name': string)
    requires forall k :: 0 <= k < |config| ==> !Names(config[k], topo', name')
    ensures Under(AllReconnected(w, config), topo', name') == Under(w, topo', name')
    ensures CreateWorkerId(topo', name') in AllReconnected(w, config) <==> CreateWorkerId(topo', name') in w
    decreases |config|
  {
    if config != [] {
      var last := config[|config| - 1];
      UnnamedStay(w, config[..|config| - 1], topo', name');
      SameWorkerId(last.topoId, last.name, topo', name');
    }
  }

  lemma {:induction false} LastNamed(config: seq<WorkerConnection>, topo': string, name': string, k: nat)
    returns (last: nat)
    requires k < |config| && Names(config[k], topo', name')
    ensures last < |config| && Names(config[last], topo', name')
    ensures forall j :: last < j < |config| ==> !Names(config[j], topo', name')
    decreases |config| - k
  {
    last := k;
    if j :| k < j < |config| && Names(config[j], topo', name') {
      last := LastNamed(config, topo', name', j);
    }
  }

  lemma {:induction false} LastDecides(w: map<string, seq<Worker>>, config: seq<WorkerConnection>, topo': string,
      name': string, last: nat)
    requires last < |config| && Names(config[last], topo', name') && CreateWorkerId(topo', name') in w
    requires forall j :: last < j < |config| ==> !Names(config[j], topo', name')
    ensures CreateWorkerId(topo', name') in AllReconnected(w, config)
    ensures Under(AllReconnected(w, config), topo', name')
         == Configured(Under(w, topo', name'), config[last].groups)
    decreases |config|
  {
    var n := |config| - 1;
    SameWorkerId(config[n].topoId, config[n].name, topo', name');
    if last < n {
      LastDecides(w, config[..n], topo', name', last);
    } else {
      SizesStay(w, config[..n], CreateWorkerId(topo', name'));
    }
  }

  /** A configuration neither starts nor ends workers, nor does it move them. */
  lemma {:induction false} SizesStay(w: map<string, seq<Worker>>, config: seq<WorkerConnection>, id: string)
    requires id in w
    ensures id in AllReconnected(w, config)
    ensures forall groups :: Configured(AllReconnected(w, config)[id], groups) == Configured(w[id], groups)
    decreases |config|
  {
    if config != [] {
      SizesStay(w, config[..|config| - 1], id);
    }
  }

  /** For example, killing the worker "c" of the topology "ab" kills "bc" of "a". */
  lemma TopologiesCollide()
    ensures !KillSpares("ab", "c", "a", "bc")
    ensures CreateWorkerId("ab", "c") == CreateWorkerId("a", "bc") == "ipc:///tmp/abc"
  {
    assert "ab" + "c" == "a" + "bc";
    KillReachesOthersExactly("ab", "c", "a", "bc");
    SameWorkerId("ab", "c", "a", "bc");
  }
}
