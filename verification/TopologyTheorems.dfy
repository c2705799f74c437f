/** What the walk over a topology computes. */
module TopologyTheorems {
  import opened Collections
  import opened Text
  import opened Topology

  // ---- reachability ----

  /** A path of edges, starting at a spout. */
  ghost predicate Path(g: Graph, path: seq<string>) {
    path != [] && path[0] in Roots(g) && forall i :: 0 < i < |path| ==> path[i] in Ids(Children(g, path[i - 1]))
  }

  /** Reached over at least one edge beyond the spouts. */
  ghost predicate Reachable(g: Graph, c: string) {
    exists path :: Path(g, path) && |path| >= 2 && path[|path| - 1] == c
  }

  lemma PathGrows(g: Graph, p: string, c: string)
    requires p in Roots(g) || Reachable(g, p)
    requires c in Ids(Children(g, p))
    ensures Reachable(g, c)
  {
    if p in Roots(g) {
      assert Path(g, [p, c]);
    } else {
      var path :| Path(g, path) && |path| >= 2 && path[|path| - 1] == p;
      assert Path(g, path + [c]);
    }
  }

  lemma {:induction false} FoundAreReachable(g: Graph, order: seq<string>, k: nat)
    requires Grounded(g, order) && k < |order|
    ensures Reachable(g, order[k])
    decreases k
  {
    assert HasParentAmong(g, Roots(g) + order[..k], order[k]);
    var p :| p in Roots(g) + order[..k] && order[k] in Ids(Children(g, p));
    if p !in Roots(g) {
      var j :| 0 <= j < k && order[..k][j] == p;
      FoundAreReachable(g, order, j);
    }
    PathGrows(g, p, order[k]);
  }

  lemma {:induction false} EdgesToExactly(edges: seq<Edge>, p: string, c: string)
    ensures EdgesTo(edges, p, c) != [] <==> c in Ids(edges)
  {
    if edges != [] {
      EdgesToExactly(edges[..|edges| - 1], p, c);
    }
  }

  lemma OneMoreParent(g: Graph, walked: seq<string>, p: string, c: string)
    ensures HasParentAmong(g, walked + [p], c) <==> HasParentAmong(g, walked, c) || c in Ids(Children(g, p))
  {
    assert p in walked + [p];
    if HasParentAmong(g, walked, c) {
      var q :| q in walked && c in Ids(Children(g, q));
      assert q in walked + [p];
    }
  }

  lemma {:induction false} ParentsFromExactly(g: Graph, walked: seq<string>, c: string)
    ensures ParentsFrom(g, walked, c) != [] <==> HasParentAmong(g, walked, c)
  {
    if walked != [] {
      var before, p := walked[..|walked| - 1], walked[|walked| - 1];
      ParentsFromExactly(g, before, c);
      EdgesToExactly(Children(g, p), p, c);
      OneMoreParent(g, before, p, c);
      assert walked == before + [p];
    }
  }

  lemma {:induction false} PathStaysInside(g: Graph, order: seq<string>, path: seq<string>)
    requires Discovered(g, order) && Path(g, path)
    ensures path[|path| - 1] in Roots(g) + order
    ensures |path| >= 2 ==> path[|path| - 1] in order
    decreases |path|
  {
    if |path| >= 2 {
      var before := path[..|path| - 1];
      assert Path(g, before);
      PathStaysInside(g, order, before);
      assert before[|before| - 1] == path[|path| - 2];
      assert HasParentAmong(g, Roots(g) + order, path[|path| - 1]);
      ParentsFromExactly(g, Roots(g) + order, path[|path| - 1]);
    }
  }

  /** There is a bolt for exactly those nodes that are reachable from a spout. */
  lemma BoltsAreTheReachable(g: Graph, order: seq<string>, c: string)
    requires Discovered(g, order)
    ensures c in order <==> Reachable(g, c)
  {
    if c in order {
      var k :| 0 <= k < |order| && order[k] == c;
      FoundAreReachable(g, order, k);
    }
    if Reachable(g, c) {
      var path :| Path(g, path) && |path| >= 2 && path[|path| - 1] == c;
      PathStaysInside(g, order, path);
    }
  }

  // ---- multiplicities ----

  /** How often p has an edge to c with the given grouping. */
  function EdgeCount(g: Graph, p: string, c: string, grouping: string): nat {
    multiset(EdgesTo(Children(g, p), p, c))[(p, grouping)]
  }

  lemma {:induction false} EdgesNameTheirParent(edges: seq<Edge>, p: string, c: string, q: string, grouping: string)
    requires p != q
    ensures multiset(EdgesTo(edges, p, c))[(q, grouping)] == 0
  {
    if edges != [] {
      EdgesNameTheirParent(edges[..|edges| - 1], p, c, q, grouping);
    }
  }

  lemma CountedByOneMore(g: Graph, before: seq<string>, q: string, p: string, c: string, grouping: string)
    ensures multiset(ParentsFrom(g, before + [q], c))[(p, grouping)] ==
            multiset(ParentsFrom(g, before, c))[(p, grouping)] + if q == p then EdgeCount(g, p, c, grouping) else 0
  {
    assert (before + [q])[..|before + [q]| - 1] == before;
    CountOfConcat(ParentsFrom(g, before, c), EdgesTo(Children(g, q), q, c), (p, grouping));
    if q != p {
      EdgesNameTheirParent(Children(g, q), q, c, p, grouping);
    }
  }

  /** An edge is listed as often as its parent is walked over. */
  lemma {:induction false} ParentsCounted(g: Graph, walked: seq<string>, p: string, c: string, grouping: string)
    ensures multiset(ParentsFrom(g, walked, c))[(p, grouping)] == multiset(walked)[p] * EdgeCount(g, p, c, grouping)
  {
    if walked == [] {
      assert ParentsFrom(g, walked, c) == [];
    } else {
      var before, q := walked[..|walked| - 1], walked[|walked| - 1];
      assert walked == before + [q];
      ParentsCounted(g, before, p, c, grouping);
      CountedByOneMore(g, before, q, p, c, grouping);
      WalkedOnceMore(before, q, p);
      Accumulates(multiset(ParentsFrom(g, walked, c))[(p, grouping)], multiset(walked)[p],
                  multiset(ParentsFrom(g, before, c))[(p, grouping)], multiset(before)[p],
                  EdgeCount(g, p, c, grouping), q == p);
    }
  }

  lemma WalkedOnceMore(before: seq<string>, q: string, p: string)
    ensures multiset(before + [q])[p] == multiset(before)[p] + if q == p then 1 else 0
  {
  }

  lemma Accumulates(total: nat, times: nat, part: nat, timesBefore: nat, k: nat, again: bool)
    requires part == timesBefore * k
    requires total == part + (if again then k else 0) && times == timesBefore + if again then 1 else 0
    ensures total == times * k
  {
  }

  /** How often a node is walked over: once if it is a bolt, and once more for every time it is a
      child of the root.  So a node is walked over twice only if it is declared a spout and is also
      a child of something reachable, or is declared a spout twice. */
  lemma WalkedOften(g: Graph, order: seq<string>, p: string)
    requires Discovered(g, order)
    ensures multiset(Roots(g) + order)[p] == multiset(Roots(g))[p] + if Reachable(g, p) then 1 else 0
  {
    BoltsAreTheReachable(g, order, p);
    DistinctCount(order, p);
  }

  lemma {:induction false} DistinctCount(s: seq<string>, x: string)
    requires NoDuplicates(s)
    ensures multiset(s)[x] == if x in s then 1 else 0
  {
    if s != [] {
      DistinctCount(s[1..], x);
      assert s == [s[0]] + s[1..];
    }
  }

  /** The parents list of every node holds each edge from a reachable node exactly once, if and only
      if no spout with an edge to it is declared twice or is itself reachable from a spout. */
  lemma ParentsAreTheEdges(g: Graph, order: seq<string>, p: string, c: string, grouping: string)
    requires Discovered(g, order)
    requires (p in Roots(g) || Reachable(g, p)) && EdgeCount(g, p, c, grouping) >= 1
    ensures multiset(ParentsFrom(g, Roots(g) + order, c))[(p, grouping)] == EdgeCount(g, p, c, grouping)
       <==> multiset(Roots(g))[p] + (if Reachable(g, p) then 1 else 0) == 1
  {
    ParentsCounted(g, Roots(g) + order, p, c, grouping);
    WalkedOften(g, order, p);
    OnlyOnce(multiset(Roots(g) + order)[p], EdgeCount(g, p, c, grouping));
  }

  lemma OnlyOnce(n: nat, k: nat)
    requires n >= 1 && k >= 1
    ensures n * k == k <==> n == 1
  {
    if n >= 2 {
      assert n * k == (n - 1) * k + k;
    }
  }
}
