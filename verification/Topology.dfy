/** Building a topology specification: a breadth-first walk that turns lists of children into lists
    of parents. */
module Topology {
  import opened Collections
  import opened Options
  import opened Text
  import opened Addresses

  datatype Grouping = Shuffle | Field | All | Default

  function GroupingString(g: Grouping): string {
    match g
    case Shuffle => "ShuffleGrouping"
    case Field => "FieldGrouping"
    case All => "AllGrouping"
    case Default => "DefaultGrouping"
  }

  /** The names that go over the wire. */
  lemma GroupingNames()
    ensures GroupingString(Shuffle) == "ShuffleGrouping" && GroupingString(Field) == "FieldGrouping"
    ensures GroupingString(All) == "AllGrouping" && GroupingString(Default) == "DefaultGrouping"
  {
  }

  /** Defined for the two groupings that the workers know. */
  function ParseGrouping(s: string): (g: Grouping)
    requires s == GroupingString(Shuffle) || s == GroupingString(Field)
    ensures GroupingString(g) == s
  {
    if s == "ShuffleGrouping" then Shuffle else Field
  }

  lemma GroupingReadsBack(g: Grouping)
    requires g == Shuffle || g == Field
    ensures GroupingString(g) == GroupingString(Shuffle) || GroupingString(g) == GroupingString(Field)
    ensures ParseGrouping(GroupingString(g)) == g
  {
    assert |GroupingString(Shuffle)| != |GroupingString(Field)|;
  }

  type Edge = (string, Grouping)
  datatype Node = Node(id: string, runname: string, paraLevel: int, children: seq<Edge>)
  type Graph = map<string, Node>

  datatype BoltSpec = BoltSpec(name: string, parents: seq<(string, string)>, runname: string, paraLevel: int)
  datatype SpoutSpec = SpoutSpec(name: string, runname: string)
  datatype TopologySpec = TopologySpec(name: string, boltSpecs: seq<BoltSpec>, spoutSpecs: seq<SpoutSpec>,
      node: int, ackerbolt: bool)

  const ROOT := "root"

  /** Every node is stored under its id, and every child is a node. */
  ghost predicate Closed(g: Graph) {
    && ROOT in g
    && forall p :: p in g ==> (p != ROOT ==> g[p].id == p) && forall e :: e in g[p].children ==> e.0 in g && e.0 != ROOT
  }

  function Children(g: Graph, p: string): seq<Edge> {
    if p in g then g[p].children else []
  }

  // ---- what the walk computes ----

  /** Entries that the edges of one node contribute to the parents list of c. */
  function EdgesTo(edges: seq<Edge>, p: string, c: string): seq<(string, string)> {
    if edges == [] then []
    else EdgesTo(edges[..|edges| - 1], p, c) + EdgeTo(edges[|edges| - 1], p, c)
  }

  function EdgeTo(e: Edge, p: string, c: string): seq<(string, string)> {
    if e.0 == c then [(p, GroupingString(e.1))] else []
  }

  /** The parents list of c after the given nodes have been walked over. */
  function ParentsFrom(g: Graph, walked: seq<string>, c: string): seq<(string, string)> {
    if walked == [] then []
    else
      var p := walked[|walked| - 1];
      ParentsFrom(g, walked[..|walked| - 1], c) + EdgesTo(Children(g, p), p, c)
  }

  function Ids(edges: seq<Edge>): seq<string> {
    if edges == [] then [] else Ids(edges[..|edges| - 1]) + [edges[|edges| - 1].0]
  }

  lemma {:induction false} IdsAre(edges: seq<Edge>, k: nat)
    ensures |Ids(edges)| == |edges|
    ensures k < |edges| ==> Ids(edges)[k] == edges[k].0
  {
    if edges != [] {
      IdsAre(edges[..|edges| - 1], k);
    }
  }

  lemma {:induction false} InIds(edges: seq<Edge>, c: string)
    ensures c in Ids(edges) <==> exists e :: e in edges && e.0 == c
    ensures c in Ids(edges) <==> EdgesTo(edges, ROOT, c) != []
  {
    if edges != [] {
      InIds(edges[..|edges| - 1], c);
      assert edges == edges[..|edges| - 1] + [edges[|edges| - 1]];
    }
  }

  function Parents(bolts: map<string, BoltSpec>, c: string): seq<(string, string)> {
    if c in bolts then bolts[c].parents else []
  }

  /** The entry for a bolt copies the node's fields and names at least one parent. */
  predicate Describes(g: Graph, c: string, bs: BoltSpec) {
    && c in g && c != ROOT && bs.parents != []
    && bs.name == c && bs.runname == g[c].runname && bs.paraLevel == g[c].paraLevel
  }

  /** The state of the walk: `order` lists the bolts in the order of their discovery. */
  ghost predicate Walked(g: Graph, bolts: map<string, BoltSpec>, order: seq<string>) {
    && NoDuplicates(order)
    && (forall c :: c in order <==> c in bolts)
    && (forall c :: c in bolts ==> Describes(g, c, bolts[c]))
  }

  /** Every parents list has grown by what the edges contribute to it. */
  ghost predicate Grew(bolts: map<string, BoltSpec>, after: map<string, BoltSpec>, p: string, edges: seq<Edge>) {
    forall c :: Parents(after, c) == Parents(bolts, c) + EdgesTo(edges, p, c)
  }

  lemma GrewByOne(bolts: map<string, BoltSpec>, mid: map<string, BoltSpec>, after: map<string, BoltSpec>, p: string,
      edges: seq<Edge>, i: nat)
    requires i < |edges| && Grew(bolts, mid, p, edges[..i])
    requires forall c :: Parents(after, c) == Parents(mid, c) + EdgeTo(edges[i], p, c)
    ensures Grew(bolts, after, p, edges[..i + 1])
  {
    forall c ensures Parents(after, c) == Parents(bolts, c) + EdgesTo(edges[..i + 1], p, c) {
      assert Parents(mid, c) == Parents(bolts, c) + EdgesTo(edges[..i], p, c);
      EdgesToSnoc(edges, i, p, c);
      Associative(Parents(bolts, c), EdgesTo(edges[..i], p, c), EdgeTo(edges[i], p, c));
    }
  }

  lemma EdgesToSnoc(edges: seq<Edge>, i: nat, p: string, c: string)
    requires i < |edges|
    ensures EdgesTo(edges[..i + 1], p, c) == EdgesTo(edges[..i], p, c) + EdgeTo(edges[i], p, c)
  {
    assert edges[..i + 1][..i] == edges[..i];
  }

  /** Entries come in the order of the edges, and of the nodes walked over. */
  lemma {:induction false} EdgesToConcat(a: seq<Edge>, b: seq<Edge>, p: string, c: string)
    ensures EdgesTo(a + b, p, c) == EdgesTo(a, p, c) + EdgesTo(b, p, c)
  {
    if b == [] {
      assert a + b == a;
    } else {
      var s := a + b;
      assert s[..|s| - 1] == a + b[..|b| - 1] && s[|s| - 1] == b[|b| - 1];
      EdgesToConcat(a, b[..|b| - 1], p, c);
      Associative(EdgesTo(a, p, c), EdgesTo(b[..|b| - 1], p, c), EdgeTo(b[|b| - 1], p, c));
    }
  }

  lemma EdgesToOne(e: Edge, p: string, c: string)
    ensures EdgesTo([e], p, c) == if e.0 == c then [(p, GroupingString(e.1))] else []
  {
    assert [e][..0] == [];
  }

  lemma {:induction false} ParentsFromConcat(g: Graph, a: seq<string>, b: seq<string>, c: string)
    ensures ParentsFrom(g, a + b, c) == ParentsFrom(g, a, c) + ParentsFrom(g, b, c)
  {
    if b == [] {
      assert a + b == a;
    } else {
      var s, p := a + b, b[|b| - 1];
      assert s[..|s| - 1] == a + b[..|b| - 1] && s[|s| - 1] == p;
      ParentsFromConcat(g, a, b[..|b| - 1], c);
      Associative(ParentsFrom(g, a, c), ParentsFrom(g, b[..|b| - 1], c), EdgesTo(Children(g, p), p, c));
    }
  }

  /** One edge looked at. */
  method Visit(g: Graph, bolts: map<string, BoltSpec>, p: string, e: Edge, ghost order: seq<string>)
    returns (after: map<string, BoltSpec>, isNew: bool)
    requires Closed(g) && Walked(g, bolts, order) && e.0 in g && e.0 != ROOT
    ensures isNew <==> e.0 !in bolts
    ensures Walked(g, after, if isNew then order + [e.0] else order)
    ensures forall c :: Parents(after, c) == Parents(bolts, c) + EdgeTo(e, p, c)
  {
    isNew := e.0 !in bolts;
    if isNew {
      var bolt := g[e.0];
      after := bolts[e.0 := BoltSpec(bolt.id, [(p, GroupingString(e.1))], bolt.runname, bolt.paraLevel)];
    } else {
      var bs := bolts[e.0];
      after := bolts[e.0 := bs.(parents := bs.parents + [(p, GroupingString(e.1))])];
    }
  }

  /** All edges of one node. */
  method Expand(g: Graph, bolts: map<string, BoltSpec>, p: string, ghost order: seq<string>)
    returns (after: map<string, BoltSpec>, found: seq<string>)
    requires Closed(g) && Walked(g, bolts, order) && p in g && p != ROOT
    ensures Walked(g, after, order + found)
    ensures Grew(bolts, after, p, g[p].children)
  {
    var parent := g[p];
    after, found := bolts, [];
    assert order + [] == order;
    for i := 0 to |parent.children|
      invariant Walked(g, after, order + found)
      invariant Grew(bolts, after, p, parent.children[..i])
    {
      var e := parent.children[i];
      assert e in g[p].children;
      ghost var mid := after;
      var isNew;
      after, isNew := Visit(g, after, parent.id, e, order + found);
      GrewByOne(bolts, mid, after, p, parent.children, i);
      if isNew {
        Associative(order, found, [e.0]);
        found := found + [e.0];
      }
    }
    assert parent.children[..|parent.children|] == parent.children;
  }

  ghost predicate ParentsAre(g: Graph, bolts: map<string, BoltSpec>, walked: seq<string>) {
    forall c :: Parents(bolts, c) == ParentsFrom(g, walked, c)
  }

  function Roots(g: Graph): seq<string> { Ids(Children(g, ROOT)) }

  /** Every bolt has been found as a child of a spout or of a bolt found before it. */
  ghost predicate Grounded(g: Graph, order: seq<string>) {
    forall k :: 0 <= k < |order| ==> HasParentAmong(g, Roots(g) + order[..k], order[k])
  }

  ghost predicate HasParentAmong(g: Graph, walked: seq<string>, c: string) {
    exists p :: p in walked && c in Ids(Children(g, p))
  }

  /** The bolts of a graph in an order of discovery: each once, and exactly those with parents. */
  ghost predicate Discovered(g: Graph, order: seq<string>) {
    NoDuplicates(order) && Grounded(g, order) && forall c :: c in order <==> ParentsFrom(g, Roots(g) + order, c) != []
  }

  /** What a finished walk leaves: nothing is missing from the parents lists of the bolts in
      `order`, and nothing that has a parent is missing from `order`. */
  ghost predicate Complete(g: Graph, bolts: map<string, BoltSpec>, order: seq<string>) {
    Walked(g, bolts, order) && Grounded(g, order) && ParentsAre(g, bolts, Roots(g) + order)
  }

  lemma ExpandAdds(g: Graph, bolts: map<string, BoltSpec>, after: map<string, BoltSpec>, walked: seq<string>, p: string)
    requires ParentsAre(g, bolts, walked) && p in g && Grew(bolts, after, p, g[p].children)
    ensures ParentsAre(g, after, walked + [p])
  {
    assert (walked + [p])[..|walked + [p]| - 1] == walked;
  }

  lemma FoundIsChild(g: Graph, bolts: map<string, BoltSpec>, after: map<string, BoltSpec>, p: string, c: string)
    requires p in g && Grew(bolts, after, p, g[p].children)
    requires c !in bolts && c in after && Describes(g, c, after[c])
    ensures c in Ids(Children(g, p))
  {
    assert Parents(after, c) == Parents(bolts, c) + EdgesTo(g[p].children, p, c);
    InIds(g[p].children, c);
    EdgesToAnyName(g[p].children, p, ROOT, c);
  }

  lemma MoreParents(g: Graph, order: seq<string>, longer: seq<string>, c: string)
    requires HasParentAmong(g, Roots(g) + order, c) && order <= longer
    ensures HasParentAmong(g, Roots(g) + longer, c)
  {
    var p :| p in Roots(g) + order && c in Ids(Children(g, p));
    assert longer == order + longer[|order|..];
    assert p in Roots(g) + longer;
  }

  lemma FoundAreGrounded(g: Graph, bolts: map<string, BoltSpec>, after: map<string, BoltSpec>, p: string,
      order: seq<string>, found: seq<string>)
    requires Walked(g, bolts, order) && Walked(g, after, order + found) && Grounded(g, order)
    requires p in g && p in Roots(g) + order && Grew(bolts, after, p, g[p].children)
    ensures Grounded(g, order + found)
  {
    var all := order + found;
    forall k | 0 <= k < |all| ensures HasParentAmong(g, Roots(g) + all[..k], all[k]) {
      if k < |order| {
        StillGrounded(g, order, found, k);
      } else {
        FoundHasParent(g, bolts, after, p, order, all, k);
        MoreParents(g, order, all[..k], all[k]);
      }
    }
  }

  lemma StillGrounded(g: Graph, order: seq<string>, found: seq<string>, k: nat)
    requires Grounded(g, order) && k < |order|
    ensures HasParentAmong(g, Roots(g) + (order + found)[..k], (order + found)[k])
  {
    assert (order + found)[..k] == order[..k] && (order + found)[k] == order[k];
  }

  lemma FoundHasParent(g: Graph, bolts: map<string, BoltSpec>, after: map<string, BoltSpec>, p: string,
      order: seq<string>, all: seq<string>, k: nat)
    requires Walked(g, bolts, order) && Walked(g, after, all) && |order| <= k < |all| && order == all[..|order|]
    requires p in g && p in Roots(g) + order && Grew(bolts, after, p, g[p].children)
    ensures HasParentAmong(g, Roots(g) + order, all[k])
  {
    assert all[k] in all;
    forall i | 0 <= i < |order| ensures order[i] != all[k] {
      assert order[i] == all[i];
    }
    FoundIsChild(g, bolts, after, p, all[k]);
  }

  lemma {:induction false} EdgesToAnyName(edges: seq<Edge>, p: string, q: string, c: string)
    ensures EdgesTo(edges, p, c) == [] <==> EdgesTo(edges, q, c) == []
  {
    if edges != [] {
      EdgesToAnyName(edges[..|edges| - 1], p, q, c);
    }
  }

  lemma {:induction false} DistinctFits(s: seq<string>, all: set<string>)
    requires NoDuplicates(s) && forall x :: x in s ==> x in all
    ensures |s| <= |all|
  {
    if s != [] {
      DistinctFits(s[1..], all - {s[0]});
    }
  }

  lemma Moved(roots: seq<string>, order: seq<string>, walked: seq<string>, queue: seq<string>, found: seq<string>)
    requires walked + queue == roots + order && queue != []
    ensures walked + [queue[0]] + (queue[1..] + found) == roots + (order + found)
  {
    assert walked + queue == walked + [queue[0]] + queue[1..];
    Associative(walked + [queue[0]], queue[1..], found);
    Associative(roots, order, found);
  }

  lemma QueuedIsNode(g: Graph, bolts: map<string, BoltSpec>, order: seq<string>, walked: seq<string>,
      queue: seq<string>)
    requires Closed(g) && Walked(g, bolts, order) && walked + queue == Roots(g) + order && queue != []
    ensures queue[0] in g && queue[0] != ROOT && queue[0] in Roots(g) + order
  {
    InRoots(g);
    assert (walked + queue)[|walked|] == queue[0];
    if queue[0] in order {
      assert Describes(g, queue[0], bolts[queue[0]]);
    }
  }

  lemma OrderFits(g: Graph, bolts: map<string, BoltSpec>, order: seq<string>)
    requires Walked(g, bolts, order)
    ensures |order| <= |g.Keys|
  {
    forall c | c in order ensures c in g.Keys {
      assert Describes(g, c, bolts[c]);
    }
    DistinctFits(order, g.Keys);
  }

  /** The walk ends on every graph, with cycles too: each pass takes a node off the queue, and a
      node is put on it again only when a bolt has been found for the first time. */
  method Walk(g: Graph) returns (bolts: map<string, BoltSpec>)
    requires Closed(g)
    ensures exists order :: Complete(g, bolts, order)
  {
    var queue := Roots(g);
    bolts := map[];
    ghost var walked: seq<string>, order: seq<string> := [], [];
    while queue != []
      invariant walked + queue == Roots(g) + order
      invariant Walked(g, bolts, order) && Grounded(g, order) && ParentsAre(g, bolts, walked)
      decreases |g.Keys| - |order|, |queue|
    {
      var id := queue[0];
      QueuedIsNode(g, bolts, order, walked, queue);
      var after, found := Expand(g, bolts, id, order);
      ExpandAdds(g, bolts, after, walked, id);
      FoundAreGrounded(g, bolts, after, id, order, found);
      OrderFits(g, after, order + found);
      Moved(Roots(g), order, walked, queue, found);
      walked, queue := walked + [id], queue[1..] + found;
      bolts, order := after, order + found;
    }
    assert walked == walked + queue;
    assert Complete(g, bolts, order);
  }

  lemma InRoots(g: Graph)
    requires Closed(g)
    ensures forall q :: q in Roots(g) ==> q in g && q != ROOT
  {
    forall q | q in Roots(g) ensures q in g && q != ROOT {
      InIds(g[ROOT].children, q);
    }
  }
}
