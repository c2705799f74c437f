/** The heartbeat overlay: which members a node subscribes to, and why heartbeats still reach
    everybody after as many failures as the overlay is built for. */
module Ring {
  import opened Collections
  import opened Options

  /** Position of the i-th predecessor of index in a ring of n. */
  function Predecessor(n: nat, index: nat, i: nat): (p: nat)
    requires 0 < n && i <= n
    ensures p < n
  {
    (index - i + n) % n
  }

  /** Among n sorted members, the one at position a subscribes to the one at position b:
      everybody in a small group, the maxFail + 1 ring predecessors otherwise. */
  ghost predicate Subscribes(n: nat, maxFail: nat, a: nat, b: nat) {
    a < n && b < n &&
    if n <= maxFail + 1 then a != b
    else exists i :: 1 <= i <= maxFail + 1 && b == Predecessor(n, a, i)
  }

  /** updateConnection: None when the socket is left as it is, otherwise all addresses the new
      socket is connected to, the introducer first.  A node that is not in the list yet subscribes
      to its last members. */
  method UpdateConnection(members: seq<string>, id: string, introducer: string, maxFail: nat)
    returns (connected: Option<seq<string>>)
    ensures connected.None? <==> |members| == 1
    ensures connected.Some? ==> connected.value != [] && connected.value[0] == introducer
    ensures |members| > 1 && NoDuplicates(members) ==>
      forall k, b :: 0 <= k < |members| && 0 <= b < |members| && members[k] == id ==>
        (members[b] in connected.value[1..] <==> Subscribes(|members|, maxFail, k, b))
    ensures |members| > maxFail + 1 && |members| > 1 && id !in members ==>
      |connected.value| == maxFail + 2
      && forall j :: 0 <= j <= maxFail ==> connected.value[1..][j] == members[|members| - 1 - j]
  {
    var size := |members|;
    if size == 1 {
      return None;
    }
    var out: seq<string> := [];
    if size <= maxFail + 1 {
      for m := 0 to size
        invariant forall x :: x in out <==> x in members[..m] && x != id
      {
        assert members[..m + 1] == members[..m] + [members[m]];
        if members[m] != id {
          out := out + [members[m]];
        }
      }
      assert members[..size] == members;
    } else {
      var index;
      index, out := ConnectRing(members, id, maxFail);
      forall k, b | 0 <= k < size && 0 <= b < size && members[k] == id && NoDuplicates(members)
        ensures members[b] in out <==> Subscribes(size, maxFail, k, b)
      {
        OutIsSubscriptions(members, maxFail, k, b, out);
      }
    }
    assert ([introducer] + out)[1..] == out;
    return Some([introducer] + out);
  }

  /** Finds the node in the list and connects to its predecessors. */
  method ConnectRing(members: seq<string>, id: string, maxFail: nat) returns (index: nat, out: seq<string>)
    requires |members| > maxFail + 1
    ensures index <= |members| && id !in members[..index] && (index < |members| ==> members[index] == id)
    ensures |out| == maxFail + 1
    ensures forall j :: 0 <= j <= maxFail ==> out[j] == members[Predecessor(|members|, index, j + 1)]
    ensures index == |members| ==> forall j :: 0 <= j <= maxFail ==> out[j] == members[|members| - 1 - j]
  {
    var size := |members|;
    index := 0;
    while index < size && members[index] != id
      invariant index <= size && id !in members[..index]
    {
      index := index + 1;
    }
    out := [];
    for i := 1 to maxFail + 2
      invariant |out| == i - 1
      invariant forall j :: 0 <= j < i - 1 ==> out[j] == members[Predecessor(size, index, j + 1)]
    {
      out := out + [members[(index - i + size) % size]];
    }
    forall j | 0 <= j <= maxFail && index == size ensures out[j] == members[size - 1 - j] {
      PredecessorIs(size, size, j + 1);
    }
  }

  lemma OutIsSubscriptions(members: seq<string>, maxFail: nat, k: nat, b: nat, out: seq<string>)
    requires NoDuplicates(members) && |members| > maxFail + 1 && k < |members| && b < |members| && |out| == maxFail + 1
    requires forall j :: 0 <= j <= maxFail ==> out[j] == members[Predecessor(|members|, k, j + 1)]
    ensures members[b] in out <==> Subscribes(|members|, maxFail, k, b)
  {
    if members[b] in out {
      var j :| 0 <= j < |out| && out[j] == members[b];
      assert b == Predecessor(|members|, k, j + 1);
    }
    if Subscribes(|members|, maxFail, k, b) {
      var i :| 1 <= i <= maxFail + 1 && b == Predecessor(|members|, k, i);
      assert out[i - 1] == members[b];
    }
  }

  // ---- the ring ----

  /** Steps from a forward to b around the ring. */
  function Distance(n: nat, a: nat, b: nat): (d: nat)
    requires a < n && b < n
    ensures d < n
    ensures d == 0 <==> a == b
  {
    if b >= a then b - a else b - a + n
  }

  lemma Wrap(n: nat, x: nat)
    requires x < 2 * n
    ensures x % n == if x < n then x else x - n
  {
    if x < n {
      assert x == n * 0 + x;
    } else {
      assert x == n * 1 + (x - n);
    }
  }

  lemma PredecessorIs(n: nat, b: nat, i: nat)
    requires b <= n && 0 < n && i <= n && (b < n || 0 < i)
    ensures Predecessor(n, b, i) == if b >= i then b - i else b - i + n
  {
    Wrap(n, b - i + n);
  }

  lemma PredecessorIsCloser(n: nat, a: nat, b: nat, i: nat)
    requires a < n && b < n && i <= Distance(n, a, b)
    ensures Distance(n, a, Predecessor(n, b, i)) == Distance(n, a, b) - i
  {
    PredecessorIs(n, b, i);
  }

  lemma PredecessorsDiffer(n: nat, b: nat, i: nat, j: nat)
    requires b < n && i < j < n
    ensures Predecessor(n, b, i) != Predecessor(n, b, j)
    ensures 0 < i ==> Predecessor(n, b, i) != b
  {
    PredecessorIs(n, b, i);
    PredecessorIs(n, b, j);
  }

  function Predecessors(n: nat, b: nat, count: nat): set<nat>
    requires b < n && count < n
  {
    if count == 0 then {} else Predecessors(n, b, count - 1) + {Predecessor(n, b, count)}
  }

  lemma {:induction false} PredecessorsCounted(n: nat, b: nat, count: nat)
    requires b < n && count < n
    ensures |Predecessors(n, b, count)| == count
    ensures forall p :: p in Predecessors(n, b, count) <==> exists i :: 1 <= i <= count && p == Predecessor(n, b, i)
  {
    if count > 0 {
      PredecessorsCounted(n, b, count - 1);
      forall i | 1 <= i < count ensures Predecessor(n, b, i) != Predecessor(n, b, count) {
        PredecessorsDiffer(n, b, i, count);
      }
    }
  }

  /** A set larger than the failures contains a survivor. */
  lemma SomeSurvives(ps: set<nat>, failed: set<nat>) returns (p: nat)
    requires |ps| > |failed|
    ensures p in ps && p !in failed
  {
    if ps <= failed {
      SubsetSize(ps, failed);
    }
    p :| p in ps && p !in failed;
  }

  // ---- connectivity ----

  /** b hears a directly: it subscribes to it, or a is the introducer everybody subscribes to. */
  ghost predicate Hears(n: nat, maxFail: nat, introducer: nat, b: nat, a: nat) {
    a < n && b < n && a != b && (a == introducer || Subscribes(n, maxFail, b, a))
  }

  /** A chain of surviving members along which a heartbeat travels. */
  ghost predicate Path(n: nat, maxFail: nat, introducer: nat, failed: set<nat>, p: seq<nat>) {
    p != [] && (forall k :: 0 <= k < |p| ==> p[k] < n && p[k] !in failed) &&
    forall k :: 0 < k < |p| ==> Hears(n, maxFail, introducer, p[k], p[k - 1])
  }

  ghost predicate Reaches(n: nat, maxFail: nat, introducer: nat, failed: set<nat>, a: nat, b: nat) {
    exists p :: Path(n, maxFail, introducer, failed, p) && p[0] == a && p[|p| - 1] == b
  }

  lemma Extend(n: nat, maxFail: nat, introducer: nat, failed: set<nat>, a: nat, q: nat, b: nat)
    requires Reaches(n, maxFail, introducer, failed, a, q) && b !in failed
    requires Hears(n, maxFail, introducer, b, q)
    ensures Reaches(n, maxFail, introducer, failed, a, b)
  {
    var p :| Path(n, maxFail, introducer, failed, p) && p[0] == a && p[|p| - 1] == q;
    assert Path(n, maxFail, introducer, failed, p + [b]);
  }

  /** Fault tolerance, for any number of members and any tolerance: after at most maxFail
      failures, heartbeats of every survivor still reach every survivor.  The introducer may be
      any number, so the ring alone already suffices (take one outside the group). */
  lemma {:induction false} SurvivorsStayConnected(n: nat, maxFail: nat, introducer: nat, failed: set<nat>, a: nat,
      b: nat)
    requires |failed| <= maxFail && a < n && b < n && a !in failed && b !in failed
    ensures Reaches(n, maxFail, introducer, failed, a, b)
    decreases Distance(n, a, b)
  {
    assert Path(n, maxFail, introducer, failed, [a]);
    var d := Distance(n, a, b);
    if a == b {
    } else if n <= maxFail + 1 || d <= maxFail + 1 {
      PredecessorIs(n, b, d);
      assert Subscribes(n, maxFail, b, a);
      Extend(n, maxFail, introducer, failed, a, a, b);
    } else {
      PredecessorsCounted(n, b, maxFail + 1);
      var q := SomeSurvives(Predecessors(n, b, maxFail + 1), failed);
      var i :| 1 <= i <= maxFail + 1 && q == Predecessor(n, b, i);
      PredecessorIsCloser(n, a, b, i);
      PredecessorsDiffer(n, b, i, i + 1);
      SurvivorsStayConnected(n, maxFail, introducer, failed, a, q);
      Extend(n, maxFail, introducer, failed, a, q, b);
    }
  }

  /** The tolerance is exact: one failure more can cut a survivor off.  If all maxFail + 1
      predecessors of b fail, and the introducer is one of them or b itself, no other survivor
      reaches b. */
  lemma OneMoreFailureCutsOff(n: nat, maxFail: nat, introducer: nat, a: nat, b: nat)
    requires n > maxFail + 2 && a < n && b < n && a != b
    requires a !in Predecessors(n, b, maxFail + 1)
    requires introducer == b || introducer in Predecessors(n, b, maxFail + 1)
    ensures |Predecessors(n, b, maxFail + 1)| == maxFail + 1 && b !in Predecessors(n, b, maxFail + 1)
    ensures !Reaches(n, maxFail, introducer, Predecessors(n, b, maxFail + 1), a, b)
  {
    var failed := Predecessors(n, b, maxFail + 1);
    PredecessorsCounted(n, b, maxFail + 1);
    forall i | 1 <= i <= maxFail + 1 ensures Predecessor(n, b, i) != b {
      PredecessorsDiffer(n, b, i, i + 1);
    }
    forall p: seq<nat> | p != [] && p[0] == a && p[|p| - 1] == b
      ensures !Path(n, maxFail, introducer, failed, p)
    {
      if Hears(n, maxFail, introducer, b, p[|p| - 2]) {
        assert p[|p| - 2] in failed;
      }
    }
  }
}
