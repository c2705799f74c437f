/** A topology specification on its way from the client to the master: encoded, parsed, and turned
    back into lists of children. */
module Wire {
  import opened Collections
  import opened Options
  import opened Topology
  import opened TopologyTheorems
  import B = Builder

  datatype BoltMessage = BoltMessage(name: string, parents: seq<(string, string)>, runname: string,
      paralevel: Option<int>)
  datatype SpoutMessage = SpoutMessage(name: string, runname: string)
  datatype SubmitRequest = SubmitRequest(toponame: string, boltspecs: seq<BoltMessage>,
      spoutspecs: seq<SpoutMessage>, ackerbolt: Option<bool>)

  /** What a BoltSpec object starts with. */
  const DEFAULT_PARA_LEVEL := 3

  function EncodedBolt(bs: BoltSpec): BoltMessage {
    BoltMessage(bs.name, bs.parents, bs.runname, if bs.paraLevel > 3 then Some(bs.paraLevel) else None)
  }

  function Encoded(spec: TopologySpec): SubmitRequest {
    SubmitRequest(spec.name,
                  seq(|spec.boltSpecs|, i requires 0 <= i < |spec.boltSpecs| => EncodedBolt(spec.boltSpecs[i])),
                  seq(|spec.spoutSpecs|, i requires 0 <= i < |spec.spoutSpecs| =>
                    SpoutMessage(spec.spoutSpecs[i].name, spec.spoutSpecs[i].runname)),
                  Some(spec.ackerbolt))
  }

  function ParsedBolt(m: BoltMessage): BoltSpec {
    BoltSpec(m.name, m.parents, m.runname, match m.paralevel case Some(p) => p case None => DEFAULT_PARA_LEVEL)
  }

  function Parsed(m: SubmitRequest): TopologySpec {
    TopologySpec(m.toponame,
                 seq(|m.boltspecs|, i requires 0 <= i < |m.boltspecs| => ParsedBolt(m.boltspecs[i])),
                 seq(|m.spoutspecs|, i requires 0 <= i < |m.spoutspecs| =>
                     SpoutSpec(m.spoutspecs[i].name, m.spoutspecs[i].runname)),
                 3,
                 match m.ackerbolt case Some(b) => b case None => true)
  }

  function AtLeastThree(p: int): (r: int)
    ensures r >= 3 && r >= p && (r == 3 || r == p)
  {
    if p > 3 then p else 3
  }

  /** What the message says: every field under its own name, and a parallel level only above three. */
  lemma MessageSays(spec: TopologySpec, k: nat)
    ensures var m := Encoded(spec);
      && m.toponame == spec.name && |m.boltspecs| == |spec.boltSpecs| && |m.spoutspecs| == |spec.spoutSpecs|
      && (k < |spec.spoutSpecs| ==>
            m.spoutspecs[k].name == spec.spoutSpecs[k].name && m.spoutspecs[k].runname == spec.spoutSpecs[k].runname)
      && (k < |spec.boltSpecs| ==>
            && m.boltspecs[k].name == spec.boltSpecs[k].name && m.boltspecs[k].runname == spec.boltSpecs[k].runname
            && m.boltspecs[k].parents == spec.boltSpecs[k].parents
            && (m.boltspecs[k].paralevel.Some? <==> spec.boltSpecs[k].paraLevel > 3)
            && (m.boltspecs[k].paralevel.Some? ==> m.boltspecs[k].paralevel.value == spec.boltSpecs[k].paraLevel))
  {
  }

  /** What an absent field is read as. */
  lemma AbsentIsDefault(m: SubmitRequest, k: nat)
    requires k < |m.boltspecs| && m.boltspecs[k].paralevel.None? && m.ackerbolt.None?
    ensures |Parsed(m).boltSpecs| == |m.boltspecs| && Parsed(m).boltSpecs[k].paraLevel == 3 && Parsed(m).ackerbolt
  {
  }

  /** Round trip: everything arrives as it was sent, except that a parallel level below three
      arrives as three and the number of nodes, which is not sent, as its default. */
  lemma SpecRoundTrip(spec: TopologySpec)
    ensures var r := Parsed(Encoded(spec));
      && r.name == spec.name && r.spoutSpecs == spec.spoutSpecs && r.ackerbolt == spec.ackerbolt && r.node == 3
      && |r.boltSpecs| == |spec.boltSpecs|
      && forall k :: 0 <= k < |spec.boltSpecs| ==>
           r.boltSpecs[k] == spec.boltSpecs[k].(paraLevel := AtLeastThree(spec.boltSpecs[k].paraLevel))
  {
    var r := Parsed(Encoded(spec));
    forall k | 0 <= k < |spec.spoutSpecs| ensures r.spoutSpecs[k] == spec.spoutSpecs[k] {
    }
  }

  /** The part of submit that fills the message. */
  method Encode(spec: TopologySpec) returns (m: SubmitRequest)
    ensures m == Encoded(spec)
  {
    var bolts: seq<BoltMessage>, spouts: seq<SpoutMessage> := [], [];
    for k := 0 to |spec.boltSpecs|
      invariant |bolts| == k && forall j :: 0 <= j < k ==> bolts[j] == EncodedBolt(spec.boltSpecs[j])
    {
      var bs := spec.boltSpecs[k];
      var bolt := BoltMessage(bs.name, [], "", None);
      for i := 0 to |bs.parents|
        invariant bolt == BoltMessage(bs.name, bs.parents[..i], "", None)
      {
        bolt := bolt.(parents := bolt.parents + [(bs.parents[i].0, bs.parents[i].1)]);
      }
      assert bs.parents[..|bs.parents|] == bs.parents;
      bolt := bolt.(runname := bs.runname);
      if bs.paraLevel > 3 {
        bolt := bolt.(paralevel := Some(bs.paraLevel));
      }
      bolts := bolts + [bolt];
    }
    for k := 0 to |spec.spoutSpecs|
      invariant |spouts| == k
      invariant forall j :: 0 <= j < k ==>
          spouts[j] == SpoutMessage(spec.spoutSpecs[j].name, spec.spoutSpecs[j].runname)
    {
      spouts := spouts + [SpoutMessage(spec.spoutSpecs[k].name, spec.spoutSpecs[k].runname)];
    }
    m := SubmitRequest(spec.name, bolts, spouts, Some(spec.ackerbolt));
  }

  method ParseFromRequest(m: SubmitRequest) returns (ts: TopologySpec)
    ensures ts == Parsed(m)
  {
    var bolts: seq<BoltSpec>, spouts: seq<SpoutSpec> := [], [];
    for k := 0 to |m.spoutspecs|
      invariant |spouts| == k
      invariant forall j :: 0 <= j < k ==> spouts[j] == SpoutSpec(m.spoutspecs[j].name, m.spoutspecs[j].runname)
    {
      spouts := spouts + [SpoutSpec(m.spoutspecs[k].name, m.spoutspecs[k].runname)];
    }
    for k := 0 to |m.boltspecs|
      invariant |bolts| == k && forall j :: 0 <= j < k ==> bolts[j] == ParsedBolt(m.boltspecs[j])
    {
      var bs := m.boltspecs[k];
      var bolt := BoltSpec(bs.name, [], bs.runname, DEFAULT_PARA_LEVEL);
      if bs.paralevel.Some? {
        bolt := bolt.(paraLevel := bs.paralevel.value);
      }
      for i := 0 to |bs.parents|
        invariant bolt == ParsedBolt(bs).(parents := bs.parents[..i])
      {
        bolt := bolt.(parents := bolt.parents + [(bs.parents[i].0, bs.parents[i].1)]);
      }
      assert bs.parents[..|bs.parents|] == bs.parents;
      bolts := bolts + [bolt];
    }
    ts := TopologySpec(m.toponame, bolts, spouts, 3, if m.ackerbolt.Some? then m.ackerbolt.value else true);
  }

  // ---- back to lists of children ----

  /** Entries that the parents of c contribute to the children list of p. */
  function ChildEntries(parents: seq<(string, string)>, c: string, p: string): seq<(string, string)> {
    if parents == [] then []
    else ChildEntries(parents[..|parents| - 1], c, p) + ChildEntry(parents[|parents| - 1], c, p)
  }

  function ChildEntry(e: (string, string), c: string, p: string): seq<(string, string)> {
    if e.0 == p then [(c, e.1)] else []
  }

  /** The children list of p in the master's tree. */
  function ChildrenFrom(bolts: seq<BoltSpec>, p: string): seq<(string, string)> {
    if bolts == [] then []
    else
      var bs := bolts[|bolts| - 1];
      ChildrenFrom(bolts[..|bolts| - 1], p) + ChildEntries(bs.parents, bs.name, p)
  }

  /** Children come in the order of the bolts, and of the parents that a bolt lists. */
  lemma {:induction false} ChildEntriesConcat(a: seq<(string, string)>, b: seq<(string, string)>, c: string, p: string)
    ensures ChildEntries(a + b, c, p) == ChildEntries(a, c, p) + ChildEntries(b, c, p)
  {
    if b == [] {
      assert a + b == a;
    } else {
      var s := a + b;
      assert s[..|s| - 1] == a + b[..|b| - 1] && s[|s| - 1] == b[|b| - 1];
      ChildEntriesConcat(a, b[..|b| - 1], c, p);
      Associative(ChildEntries(a, c, p), ChildEntries(b[..|b| - 1], c, p), ChildEntry(b[|b| - 1], c, p));
    }
  }

  lemma ChildEntriesOfOne(parent: (string, string), c: string, p: string)
    ensures ChildEntries([parent], c, p) == if parent.0 == p then [(c, parent.1)] else []
  {
    assert [parent][..0] == [];
  }

  lemma {:induction false} ChildrenFromConcat(a: seq<BoltSpec>, b: seq<BoltSpec>, p: string)
    ensures ChildrenFrom(a + b, p) == ChildrenFrom(a, p) + ChildrenFrom(b, p)
  {
    if b == [] {
      assert a + b == a;
    } else {
      var s, bs := a + b, b[|b| - 1];
      assert s[..|s| - 1] == a + b[..|b| - 1] && s[|s| - 1] == bs;
      ChildrenFromConcat(a, b[..|b| - 1], p);
      Associative(ChildrenFrom(a, p), ChildrenFrom(b[..|b| - 1], p), ChildEntries(bs.parents, bs.name, p));
    }
  }

  function Entries(tree: Tree, p: string): seq<(string, string)> {
    if p in tree then tree[p] else []
  }

  type Tree = map<string, seq<(string, string)>>

  ghost predicate Grew(before: Tree, after: Tree, parents: seq<(string, string)>, c: string) {
    forall p :: Entries(after, p) == Entries(before, p) + ChildEntries(parents, c, p)
  }

  lemma ChildEntriesSnoc(parents: seq<(string, string)>, i: nat, c: string, p: string)
    requires i < |parents|
    ensures ChildEntries(parents[..i + 1], c, p) == ChildEntries(parents[..i], c, p) + ChildEntry(parents[i], c, p)
  {
    assert parents[..i + 1][..i] == parents[..i];
  }

  lemma GrewByOne(before: Tree, mid: Tree, after: Tree, parents: seq<(string, string)>, i: nat, c: string)
    requires i < |parents| && Grew(before, mid, parents[..i], c)
    requires forall p :: Entries(after, p) == Entries(mid, p) + ChildEntry(parents[i], c, p)
    ensures Grew(before, after, parents[..i + 1], c)
  {
    forall p ensures Entries(after, p) == Entries(before, p) + ChildEntries(parents[..i + 1], c, p) {
      assert Entries(mid, p) == Entries(before, p) + ChildEntries(parents[..i], c, p);
      ChildEntriesSnoc(parents, i, c, p);
      Associative(Entries(before, p), ChildEntries(parents[..i], c, p), ChildEntry(parents[i], c, p));
    }
  }

  predicate NoEmptyEntry(tree: Tree) {
    forall p :: p in tree ==> tree[p] != []
  }

  /** tree[parent].push_back(...). */
  method PushBack(tree: Tree, parent: (string, string), c: string) returns (after: Tree)
    requires NoEmptyEntry(tree)
    ensures forall p :: Entries(after, p) == Entries(tree, p) + ChildEntry(parent, c, p)
    ensures NoEmptyEntry(after)
  {
    after := tree[parent.0 := Entries(tree, parent.0) + [(c, parent.1)]];
  }

  method InvertBolt(tree: Tree, bs: BoltSpec) returns (after: Tree)
    requires NoEmptyEntry(tree)
    ensures Grew(tree, after, bs.parents, bs.name) && NoEmptyEntry(after)
  {
    after := tree;
    for i := 0 to |bs.parents|
      invariant Grew(tree, after, bs.parents[..i], bs.name) && NoEmptyEntry(after)
    {
      ghost var mid := after;
      after := PushBack(after, bs.parents[i], bs.name);
      GrewByOne(tree, mid, after, bs.parents, i, bs.name);
    }
    assert bs.parents[..|bs.parents|] == bs.parents;
  }

  /** The part of prepareTopology that inverts the parents lists. */
  method InvertParents(bolts: seq<BoltSpec>) returns (tree: Tree)
    ensures forall p :: Entries(tree, p) == ChildrenFrom(bolts, p)
    ensures NoEmptyEntry(tree)
  {
    tree := map[];
    for k := 0 to |bolts|
      invariant forall p :: Entries(tree, p) == ChildrenFrom(bolts[..k], p)
      invariant NoEmptyEntry(tree)
    {
      assert bolts[..k + 1][..k] == bolts[..k];
      tree := InvertBolt(tree, bolts[k]);
    }
    assert bolts[..|bolts|] == bolts;
  }

  lemma OneEntryCounted(e: (string, string), name: string, p: string, c: string, grouping: string)
    ensures multiset(ChildEntry(e, name, p))[(c, grouping)] == if c == name then multiset([e])[(p, grouping)] else 0
  {
  }

  lemma {:induction false} ChildEntriesCounted(parents: seq<(string, string)>, name: string, p: string, c: string,
      grouping: string)
    ensures multiset(ChildEntries(parents, name, p))[(c, grouping)] ==
            if c == name then multiset(parents)[(p, grouping)] else 0
  {
    if parents != [] {
      var before, e := parents[..|parents| - 1], parents[|parents| - 1];
      ChildEntriesCounted(before, name, p, c, grouping);
      OneEntryCounted(e, name, p, c, grouping);
      LastCounted(parents, (p, grouping));
      assert multiset(ChildEntries(parents, name, p))[(c, grouping)] ==
             multiset(ChildEntries(before, name, p))[(c, grouping)]
             + multiset(ChildEntry(e, name, p))[(c, grouping)] by {
        CountOfConcat(ChildEntries(before, name, p), ChildEntry(e, name, p), (c, grouping));
      }
    }
  }

  lemma LastCounted(parents: seq<(string, string)>, x: (string, string))
    requires parents != []
    ensures multiset(parents)[x] == multiset(parents[..|parents| - 1])[x] + multiset([parents[|parents| - 1]])[x]
  {
    CountOfConcat(parents[..|parents| - 1], [parents[|parents| - 1]], x);
    assert parents == parents[..|parents| - 1] + [parents[|parents| - 1]];
  }

  /** The parents list of c, if there is exactly one bolt of that name. */
  function ParentsOf(bolts: seq<BoltSpec>, c: string): seq<(string, string)> {
    if bolts == [] then []
    else if bolts[|bolts| - 1].name == c then bolts[|bolts| - 1].parents
    else ParentsOf(bolts[..|bolts| - 1], c)
  }

  lemma {:induction false} ParentsOfNone(bolts: seq<BoltSpec>, c: string)
    requires c !in B.Names(bolts)
    ensures ParentsOf(bolts, c) == []
  {
    if bolts != [] {
      assert B.Names(bolts)[|bolts| - 1] == bolts[|bolts| - 1].name;
      assert B.Names(bolts[..|bolts| - 1]) == B.Names(bolts)[..|bolts| - 1];
      ParentsOfNone(bolts[..|bolts| - 1], c);
    }
  }

  /** Inverting keeps every edge, as often as it was there. */
  lemma {:induction false} InversionKeepsEdges(bolts: seq<BoltSpec>, p: string, c: string, grouping: string)
    requires NoDuplicates(B.Names(bolts))
    ensures multiset(ChildrenFrom(bolts, p))[(c, grouping)] == multiset(ParentsOf(bolts, c))[(p, grouping)]
  {
    if bolts != [] {
      var before, bs := bolts[..|bolts| - 1], bolts[|bolts| - 1];
      assert B.Names(before) == B.Names(bolts)[..|bolts| - 1];
      InversionKeepsEdges(before, p, c, grouping);
      ChildEntriesCounted(bs.parents, bs.name, p, c, grouping);
      CountOfConcat(ChildrenFrom(before, p), ChildEntries(bs.parents, bs.name, p), (c, grouping));
      if bs.name == c {
        assert B.Names(bolts)[|bolts| - 1] == c;
        ParentsOfNone(before, c);
      }
    }
  }

  // ---- the whole way ----

  /** The children of a node as the user declared them, with their groupings written out. */
  function Declared(edges: seq<Edge>): seq<(string, string)> {
    if edges == [] then []
    else Declared(edges[..|edges| - 1]) + [(edges[|edges| - 1].0, GroupingString(edges[|edges| - 1].1))]
  }

  /** Child for child what has been declared, in the same order. */
  lemma {:induction false} DeclaredAre(edges: seq<Edge>, k: nat)
    ensures |Declared(edges)| == |edges|
    ensures k < |edges| ==> Declared(edges)[k] == (edges[k].0, GroupingString(edges[k].1))
  {
    if edges != [] {
      DeclaredAre(edges[..|edges| - 1], k);
    }
  }

  lemma {:induction false} DeclaredCounted(edges: seq<Edge>, p: string, c: string, grouping: string)
    ensures multiset(Declared(edges))[(c, grouping)] == multiset(EdgesTo(edges, p, c))[(p, grouping)]
  {
    if edges != [] {
      var before, e := edges[..|edges| - 1], edges[|edges| - 1];
      DeclaredCounted(before, p, c, grouping);
      CountOfConcat(Declared(before), [(e.0, GroupingString(e.1))], (c, grouping));
      CountOfConcat(EdgesTo(before, p, c), EdgeTo(e, p, c), (p, grouping));
    }
  }

  /** How often the builder walks over p: once if p is reachable from a spout, and once for every
      time it has been declared a spout. */
  ghost function Times(g: Graph, p: string): nat {
    multiset(Roots(g))[p] + if Reachable(g, p) then 1 else 0
  }

  lemma {:induction false} ParentsOfListed(bolts: seq<BoltSpec>, k: nat)
    requires NoDuplicates(B.Names(bolts)) && k < |bolts|
    ensures ParentsOf(bolts, bolts[k].name) == bolts[k].parents
  {
    var last := |bolts| - 1;
    assert B.Names(bolts)[last] == bolts[last].name && B.Names(bolts)[k] == bolts[k].name;
    if k < last {
      assert B.Names(bolts[..last]) == B.Names(bolts)[..last];
      ParentsOfListed(bolts[..last], k);
    }
  }

  /** The parents that arrive for c are the parents that the walk has found. */
  lemma ArrivedParents(g: Graph, name: string, order: seq<string>, ts: TopologySpec, c: string)
    requires Closed(g) && B.SpecOf(g, name, order, ts) && Discovered(g, order)
    ensures var bolts := Parsed(Encoded(ts)).boltSpecs;
      NoDuplicates(B.Names(bolts)) && ParentsOf(bolts, c) == ParentsFrom(g, Roots(g) + order, c)
  {
    var bolts := Parsed(Encoded(ts)).boltSpecs;
    SpecRoundTrip(ts);
    assert B.Names(bolts) == B.Names(ts.boltSpecs);
    if c in order {
      var k :| 0 <= k < |bolts| && B.Names(bolts)[k] == c;
      ParentsOfListed(bolts, k);
      assert B.BoltIs(g, order, ts.boltSpecs[k]);
    } else {
      ParentsOfNone(bolts, c);
    }
  }

  /** The whole way, from the declarations to the master's tree, for any graph.  Under every node p
      the tree lists each declared child with its grouping as often as p has been walked over: the
      children of a node that is a bolt, or a spout and nothing else, arrive exactly, those of a
      node that is both arrive twice, and those of an unreachable node not at all. */
  lemma TreeIsTheDeclaredGraph(g: Graph, name: string, ts: TopologySpec, p: string, c: string, grouping: string)
    requires Closed(g) && B.Compiled(g, name, ts)
    ensures multiset(ChildrenFrom(Parsed(Encoded(ts)).boltSpecs, p))[(c, grouping)] ==
            Times(g, p) * multiset(Declared(Children(g, p)))[(c, grouping)]
  {
    var bolts := Parsed(Encoded(ts)).boltSpecs;
    var order :| B.SpecOf(g, name, order, ts) && Discovered(g, order);
    ArrivedParents(g, name, order, ts, c);
    InversionKeepsEdges(bolts, p, c, grouping);
    ParentsCounted(g, Roots(g) + order, p, c, grouping);
    WalkedOften(g, order, p);
    DeclaredCounted(Children(g, p), p, c, grouping);
  }

  /** When every node is walked over at most once, which is so if nothing reachable has an edge to
      a spout and no spout is declared twice, the children lists arrive as they were declared. */
  lemma ChildrenRoundTrip(g: Graph, name: string, ts: TopologySpec, p: string)
    requires Closed(g) && B.Compiled(g, name, ts) && Times(g, p) <= 1
    ensures multiset(ChildrenFrom(Parsed(Encoded(ts)).boltSpecs, p)) ==
            if Times(g, p) == 1 then multiset(Declared(Children(g, p))) else multiset{}
  {
    var tree, declared := ChildrenFrom(Parsed(Encoded(ts)).boltSpecs, p), Declared(Children(g, p));
    forall c, grouping ensures multiset(tree)[(c, grouping)] == Times(g, p) * multiset(declared)[(c, grouping)] {
      TreeIsTheDeclaredGraph(g, name, ts, p, c, grouping);
    }
    OnceOrNever(multiset(tree), multiset(declared), Times(g, p));
  }

  lemma OnceOrNever(a: multiset<(string, string)>, b: multiset<(string, string)>, n: nat)
    requires n <= 1 && forall c, grouping :: a[(c, grouping)] == n * b[(c, grouping)]
    ensures a == if n == 1 then b else multiset{}
  {
    forall e: (string, string) ensures a[e] == if n == 1 then b[e] else 0 {
      assert e == (e.0, e.1);
    }
  }
}
