/** The topology builder: nodes and edges as the user declares them, and the specification built
    from them. */
module Builder {
  import opened Collections
  import opened Text
  import opened Addresses
  import opened Topology

  function Names(bolts: seq<BoltSpec>): seq<string> {
    seq(|bolts|, i requires 0 <= i < |bolts| => bolts[i].name)
  }

  /** One spout for every child of the virtual root, one bolt for everything found, in name order. */
  ghost predicate SpecOf(g: Graph, name: string, order: seq<string>, ts: TopologySpec)
    requires Closed(g)
  {
    && ts.name == name && ts.node == 3 && ts.ackerbolt
    && |ts.spoutSpecs| == |Roots(g)|
    && (forall k :: 0 <= k < |Roots(g)| ==>
        Roots(g)[k] in g && ts.spoutSpecs[k] == SpoutSpec(Roots(g)[k], g[Roots(g)[k]].runname))
    && NoDuplicates(Names(ts.boltSpecs)) && Ascending(Names(ts.boltSpecs))
    && (forall c :: c in order <==> c in Names(ts.boltSpecs))
    && (forall k :: 0 <= k < |ts.boltSpecs| ==> BoltIs(g, order, ts.boltSpecs[k]))
  }

  /** What building a topology produces. */
  ghost predicate Compiled(g: Graph, name: string, ts: TopologySpec)
    requires Closed(g)
  {
    exists order :: SpecOf(g, name, order, ts) && Discovered(g, order)
  }

  predicate BoltIs(g: Graph, order: seq<string>, bs: BoltSpec) {
    Describes(g, bs.name, bs) && bs.parents == ParentsFrom(g, Roots(g) + order, bs.name)
  }

  lemma CountsMeanDistinct(s: seq<string>)
    requires forall x :: multiset(s)[x] <= 1
    ensures NoDuplicates(s)
  {
    forall i, j | 0 <= i < j < |s| ensures s[i] != s[j] {
      assert s == s[..j] + [s[j]] + s[j + 1..];
      assert s[i] in s[..j];
      assert multiset(s)[s[j]] == multiset(s[..j])[s[j]] + 1 + multiset(s[j + 1..])[s[j]];
    }
  }

  /** The order in which an ordered map is iterated over. */
  method SortedKeys(keys: set<string>) returns (list: seq<string>)
    ensures Ascending(list) && NoDuplicates(list)
    ensures forall x :: x in list <==> x in keys
  {
    list := [];
    var rest := keys;
    while rest != {}
      invariant rest <= keys && Ascending(list)
      invariant multiset(list) == multiset(keys - rest)
    {
      var x :| x in rest;
      list := Insert(list, x);
      assert keys - (rest - {x}) == (keys - rest) + {x};
      rest := rest - {x};
    }
    assert keys - rest == keys;
    assert forall x :: x in list <==> x in multiset(list);
    CountsMeanDistinct(list);
  }

  class TopologyBuilder {
    var name: string
    var nodeTypeMap: Graph

    ghost predicate Valid()
      reads this
    {
      Closed(nodeTypeMap)
    }

    constructor (name: string)
      ensures Valid() && nodeTypeMap == map[ROOT := Node("", "", 0, [])] && this.name == name
    {
      this.name := name;
      nodeTypeMap := map[ROOT := Node("", "", 0, [])];
    }

    /** Refused, by an exception, if the id is taken. */
    method SetNode(id: string, runname: string, paraLevel: int) returns (ok: bool)
      requires Valid()
      modifies this`nodeTypeMap
      ensures Valid() && ok == (id !in old(nodeTypeMap))
      ensures nodeTypeMap == if ok then old(nodeTypeMap)[id := Node(id, runname, paraLevel, [])] else old(nodeTypeMap)
    {
      ok := id !in nodeTypeMap;
      if ok {
        nodeTypeMap := nodeTypeMap[id := Node(id, runname, paraLevel, [])];
      }
    }

    /** node->setParent(parent, grouping); both must have been declared. */
    method SetParent(id: string, parent: string, grouping: Grouping)
      requires Valid() && id in nodeTypeMap && id != ROOT && parent in nodeTypeMap
      modifies this`nodeTypeMap
      ensures Valid() && nodeTypeMap.Keys == old(nodeTypeMap.Keys)
      ensures Children(nodeTypeMap, parent) == old(Children(nodeTypeMap, parent)) + [(id, grouping)]
      ensures nodeTypeMap[parent] == old(nodeTypeMap)[parent].(children := nodeTypeMap[parent].children)
      ensures forall p :: p in nodeTypeMap && p != parent ==> nodeTypeMap[p] == old(nodeTypeMap)[p]
    {
      var node := nodeTypeMap[parent];
      nodeTypeMap := nodeTypeMap[parent := node.(children := node.children + [(id, grouping)])];
    }

    method SetSpout(id: string, runname: string) returns (ok: bool)
      requires Valid()
      modifies this`nodeTypeMap
      ensures Valid() && ok == (id !in old(nodeTypeMap))
      ensures ok ==> Roots(nodeTypeMap) == old(Roots(nodeTypeMap)) + [id]
      ensures ok ==> Children(nodeTypeMap, ROOT) == old(Children(nodeTypeMap, ROOT)) + [(id, Default)]
      ensures ok ==> nodeTypeMap.Keys == old(nodeTypeMap.Keys) + {id} && nodeTypeMap[id] == Node(id, runname, 1, [])
      ensures ok ==> forall p :: p in old(nodeTypeMap) && p != ROOT ==> nodeTypeMap[p] == old(nodeTypeMap)[p]
      ensures !ok ==> nodeTypeMap == old(nodeTypeMap)
    {
      ok := SetNode(id, runname, 1);
      if ok {
        SetParent(id, ROOT, Default);
      }
    }

    method SetBolt(id: string, runname: string, paraLevel: int) returns (ok: bool)
      requires Valid()
      modifies this`nodeTypeMap
      ensures Valid() && ok == (id !in old(nodeTypeMap))
      ensures nodeTypeMap == if ok then old(nodeTypeMap)[id := Node(id, runname, paraLevel, [])] else old(nodeTypeMap)
    {
      ok := SetNode(id, runname, paraLevel);
    }

    method BuildTopology() returns (ts: TopologySpec)
      requires Valid()
      ensures Compiled(nodeTypeMap, name, ts)
    {
      var spouts := SpoutSpecs(nodeTypeMap);
      var boltMap := Walk(nodeTypeMap);
      ghost var order :| Complete(nodeTypeMap, boltMap, order);
      var bolts, keys := BoltSpecs(boltMap);
      BoltsAreDescribed(nodeTypeMap, boltMap, order, keys, bolts);
      ts := TopologySpec(name, bolts, spouts, 3, true);
      forall c ensures c in order <==> ParentsFrom(nodeTypeMap, Roots(nodeTypeMap) + order, c) != [] {
        ListedExactly(nodeTypeMap, boltMap, order, c);
      }
      assert SpecOf(nodeTypeMap, name, order, ts) && Discovered(nodeTypeMap, order);
    }
  }

  method SpoutSpecs(g: Graph) returns (spouts: seq<SpoutSpec>)
    requires Closed(g)
    ensures |spouts| == |Roots(g)|
    ensures forall k :: 0 <= k < |Roots(g)| ==>
        Roots(g)[k] in g && spouts[k] == SpoutSpec(Roots(g)[k], g[Roots(g)[k]].runname)
  {
    var roots := Roots(g);
    InRoots(g);
    spouts := [];
    for k := 0 to |roots|
      invariant |spouts| == k
      invariant forall j :: 0 <= j < k ==> roots[j] in g && spouts[j] == SpoutSpec(roots[j], g[roots[j]].runname)
    {
      assert roots[k] in roots;
      spouts := spouts + [SpoutSpec(g[roots[k]].id, g[roots[k]].runname)];
    }
  }

  method BoltSpecs(boltMap: map<string, BoltSpec>) returns (bolts: seq<BoltSpec>, keys: seq<string>)
    ensures NoDuplicates(keys) && Ascending(keys) && forall c :: c in keys <==> c in boltMap
    ensures |bolts| == |keys| && forall k :: 0 <= k < |keys| ==> keys[k] in boltMap && bolts[k] == boltMap[keys[k]]
  {
    keys := SortedKeys(boltMap.Keys);
    bolts := [];
    for k := 0 to |keys|
      invariant |bolts| == k
      invariant forall j :: 0 <= j < k ==> keys[j] in boltMap && bolts[j] == boltMap[keys[j]]
    {
      assert keys[k] in keys;
      bolts := bolts + [boltMap[keys[k]]];
    }
  }

  lemma ListedExactly(g: Graph, boltMap: map<string, BoltSpec>, order: seq<string>, c: string)
    requires Complete(g, boltMap, order)
    ensures c in order <==> ParentsFrom(g, Roots(g) + order, c) != []
  {
    assert Parents(boltMap, c) == ParentsFrom(g, Roots(g) + order, c);
    if c in boltMap {
      assert Describes(g, c, boltMap[c]);
    }
  }

  lemma BoltsAreDescribed(g: Graph, boltMap: map<string, BoltSpec>, order: seq<string>, keys: seq<string>,
      bolts: seq<BoltSpec>)
    requires Complete(g, boltMap, order) && |keys| == |bolts|
    requires forall c :: c in keys <==> c in boltMap
    requires forall k :: 0 <= k < |keys| ==> keys[k] in boltMap && bolts[k] == boltMap[keys[k]]
    ensures Names(bolts) == keys && forall c :: c in order <==> c in keys
    ensures forall k :: 0 <= k < |bolts| ==> BoltIs(g, order, bolts[k])
  {
    forall k | 0 <= k < |keys| ensures bolts[k].name == keys[k] && BoltIs(g, order, bolts[k]) {
      assert Describes(g, keys[k], boltMap[keys[k]]);
      assert Parents(boltMap, keys[k]) == ParentsFrom(g, Roots(g) + order, keys[k]);
    }
  }
}
