/** Tuples, batches, and the field grouping that decides which instance a tuple goes to. */
module Routing {
  import opened Collections

  /** The data vector always holds at least the field the grouping looks at. */
  datatype RawTuple = RawTuple(id: int, data: seq<string>)
  type Tuple = t: RawTuple | t.data != [] witness RawTuple(0, [""])
  type Batch = seq<Tuple>

  /** One TUPLE_BATCH message and the connection it is sent on. */
  datatype Envelope = Envelope(dest: nat, batch: Batch)

  function Key(t: Tuple): string { t.data[0] }

  /** Data vectors of the tuples whose first field is x, in order. */
  function Of(x: string, b: Batch): seq<seq<string>> {
    if b == [] then [] else (if Key(b[0]) == x then [b[0].data] else []) + Of(x, b[1..])
  }

  lemma {:induction false} OfConcat(x: string, a: Batch, b: Batch)
    ensures Of(x, a + b) == Of(x, a) + Of(x, b)
  {
    if a == [] {
      assert a + b == b;
    } else {
      OfConcat(x, a[1..], b);
      assert (a + b)[0] == a[0] && (a + b)[1..] == a[1..] + b;
      Associative(if Key(a[0]) == x then [a[0].data] else [], Of(x, a[1..]), Of(x, b));
    }
  }

  /** A batch without a tuple for x contributes nothing to x. */
  lemma {:induction false} OfNone(x: string, b: Batch)
    requires forall t :: t in b ==> Key(t) != x
    ensures Of(x, b) == []
  {
    if b != [] {
      assert b[0] in b;
      OfNone(x, b[1..]);
    }
  }

  /** What adding a plain `char` contributes on a platform where char is signed. */
  function SignedChar(c: char): int {
    (c as int + 128) % 256 - 128
  }

  function HashField(s: string): int {
    if s == [] then 0 else HashField(s[..|s| - 1]) + SignedChar(s[|s| - 1])
  }

  /** A plain char counts as its code up to 127, and as its code less 256 from 128 on. */
  lemma HashOfOne(c: char)
    requires c as int < 256
    ensures HashField([c]) == if c as int < 128 then c as int else c as int - 256
  {
    assert [c][..0] == [];
  }

  /** The hash is the sum over the characters, in whatever way the key is cut. */
  lemma {:induction false} HashOfConcat(a: string, b: string)
    ensures HashField(a + b) == HashField(a) + HashField(b)
  {
    if b == [] {
      assert a + b == a;
    } else {
      var s := a + b;
      assert s[..|s| - 1] == a + b[..|b| - 1] && s[|s| - 1] == b[|b| - 1];
      HashOfConcat(a, b[..|b| - 1]);
    }
  }

  /** `hash % connections.size()`: the int is first converted to a 64-bit unsigned size. */
  const SIZE_T_RANGE: int := 0x1_0000_0000_0000_0000

  function Home(x: string, n: nat): (d: nat)
    requires n > 0
    ensures d < n
  {
    (HashField(x) % SIZE_T_RANGE) % n
  }

  /** The connection is the hash modulo their number; a negative hash counts from 2^64 downwards. */
  lemma HomeExactly(x: string, n: nat)
    requires n > 0 && -SIZE_T_RANGE < HashField(x) < SIZE_T_RANGE
    ensures HashField(x) >= 0 ==> Home(x, n) == HashField(x) % n
    ensures HashField(x) < 0 ==> Home(x, n) == (HashField(x) + SIZE_T_RANGE) % n
  {
    AsUnsigned(HashField(x));
  }

  lemma AsUnsigned(hash: int)
    requires -SIZE_T_RANGE < hash < SIZE_T_RANGE
    ensures hash % SIZE_T_RANGE == if hash >= 0 then hash else hash + SIZE_T_RANGE
  {
  }

  predicate AllHome(b: Batch, n: nat, d: nat)
    requires n > 0
  {
    forall t :: t in b ==> Home(Key(t), n) == d
  }

  /** The tuples of a batch that belong on connection d, in batch order. */
  function Part(b: Batch, n: nat, d: nat): (p: Batch)
    requires n > 0
    ensures AllHome(p, n, d)
    ensures forall t :: t in p ==> t in b
  {
    if b == [] then [] else (if Home(Key(b[0]), n) == d then [b[0]] else []) + Part(b[1..], n, d)
  }

  /** The messages for connections d, d+1, ..., in that order; nothing is sent to a
      connection that gets no tuple. */
  function RouteFrom(b: Batch, n: nat, d: nat): seq<Envelope>
    requires n > 0 && d <= n
    decreases n - d
  {
    if d == n then []
    else (if Part(b, n, d) == [] then [] else [Envelope(d, Part(b, n, d))]) + RouteFrom(b, n, d + 1)
  }

  function FieldRoute(b: Batch, n: nat): seq<Envelope>
    requires n > 0
  {
    RouteFrom(b, n, 0)
  }

  /** Everything an envelope list carries to connection d. */
  function ToDest(es: seq<Envelope>, d: nat): Batch {
    if es == [] then [] else (if es[0].dest == d then es[0].batch else []) + ToDest(es[1..], d)
  }

  lemma {:induction false} PartOf(x: string, b: Batch, n: nat, d: nat)
    requires n > 0
    ensures Of(x, Part(b, n, d)) == if d == Home(x, n) then Of(x, b) else []
  {
    if b != [] {
      PartOf(x, b[1..], n, d);
      OfConcat(x, if Home(Key(b[0]), n) == d then [b[0]] else [], Part(b[1..], n, d));
    }
  }

  lemma {:induction false} RouteFromParts(b: Batch, n: nat, d: nat)
    requires n > 0 && d <= n
    ensures forall e :: e in RouteFrom(b, n, d) ==>
              d <= e.dest < n && e.batch == Part(b, n, e.dest) && e.batch != []
    decreases n - d
  {
    if d < n {
      RouteFromParts(b, n, d + 1);
    }
  }

  lemma ToDestCons(e: Envelope, rest: seq<Envelope>, k: nat)
    ensures ToDest([e] + rest, k) == if e.dest == k then e.batch + ToDest(rest, k) else ToDest(rest, k)
  {
    assert ([e] + rest)[0] == e && ([e] + rest)[1..] == rest;
  }

  lemma {:induction false} RouteFromDest(b: Batch, n: nat, d: nat, k: nat)
    requires n > 0 && d <= n && k < n
    ensures ToDest(RouteFrom(b, n, d), k) == if d <= k then Part(b, n, k) else []
    decreases n - d
  {
    if d < n {
      RouteFromDest(b, n, d + 1, k);
      OneMessage(Part(b, n, d), RouteFrom(b, n, d + 1), d, k);
    }
  }

  /** A message with this part, unless it is empty, in front of others. */
  lemma OneMessage(part: Batch, rest: seq<Envelope>, d: nat, k: nat)
    ensures var sent := ToDest((if part == [] then [] else [Envelope(d, part)]) + rest, k);
      && (d != k ==> sent == ToDest(rest, k))
      && (d == k && ToDest(rest, k) == [] ==> sent == part)
  {
    if part == [] {
      assert [] + rest == rest;
    } else {
      ToDestCons(Envelope(d, part), rest, k);
    }
  }

  /** Field grouping: connection k receives exactly the tuples whose first field hashes to k,
      and every message is for a valid connection and is not empty. */
  lemma FieldRouteDest(b: Batch, n: nat, k: nat)
    requires n > 0 && k < n
    ensures ToDest(FieldRoute(b, n), k) == Part(b, n, k)
    ensures forall e :: e in FieldRoute(b, n) ==> e.dest < n && e.batch != [] && AllHome(e.batch, n, e.dest)
    ensures forall e, t :: e in FieldRoute(b, n) && t in e.batch ==> t in b
  {
    RouteFromDest(b, n, 0, k);
    RouteFromParts(b, n, 0);
  }

  /** Puts parts back together: the i-th tuple is the next one of part order[i]. */
  function Weave(order: seq<nat>, parts: seq<Batch>): Batch
  {
    if order == [] || order[0] >= |parts| || parts[order[0]] == [] then []
    else [parts[order[0]][0]] + Weave(order[1..], parts[order[0] := parts[order[0]][1..]])
  }

  function Homes(b: Batch, n: nat): seq<nat>
    requires n > 0
  {
    if b == [] then [] else [Home(Key(b[0]), n)] + Homes(b[1..], n)
  }

  function Parts(b: Batch, n: nat): seq<Batch>
    requires n > 0
  {
    seq(n, d requires 0 <= d < n => Part(b, n, d))
  }

  lemma WeaveStep(b: Batch, n: nat)
    requires n > 0 && b != []
    ensures Weave(Homes(b, n), Parts(b, n)) == [b[0]] + Weave(Homes(b[1..], n), Parts(b[1..], n))
  {
    var h := Home(Key(b[0]), n);
    var ps := Parts(b, n);
    assert ps[h] == [b[0]] + Part(b[1..], n, h);
    assert ps[h][1..] == Part(b[1..], n, h);
    forall d | 0 <= d < n ensures ps[h := ps[h][1..]][d] == Parts(b[1..], n)[d] {
      if d != h { assert Part(b, n, d) == [] + Part(b[1..], n, d); }
    }
    assert ps[h := ps[h][1..]] == Parts(b[1..], n);
    assert Homes(b, n)[1..] == Homes(b[1..], n);
  }

  /** Routing loses, repeats and reorders nothing: weaving what the connections receive,
      in the order the keys say, gives the batch back. */
  lemma {:induction false} RoutedPartsWeaveBack(b: Batch, n: nat)
    requires n > 0
    ensures Weave(Homes(b, n), Parts(b, n)) == b
    ensures forall d :: 0 <= d < n ==> Parts(b, n)[d] == ToDest(FieldRoute(b, n), d)
  {
    forall d | 0 <= d < n ensures Parts(b, n)[d] == ToDest(FieldRoute(b, n), d) {
      FieldRouteDest(b, n, d);
    }
    if b != [] {
      RoutedPartsWeaveBack(b[1..], n);
      WeaveStep(b, n);
    }
  }

  /** Messages list their connections in strictly increasing order, so no connection gets two. */
  lemma {:induction false} RouteOrdered(b: Batch, n: nat, d: nat)
    requires n > 0 && d <= n
    ensures forall i, j :: 0 <= i < j < |RouteFrom(b, n, d)| ==>
              RouteFrom(b, n, d)[i].dest < RouteFrom(b, n, d)[j].dest
    ensures forall i :: 0 <= i < |RouteFrom(b, n, d)| ==> d <= RouteFrom(b, n, d)[i].dest
    decreases n - d
  {
    if d < n {
      RouteOrdered(b, n, d + 1);
    }
  }
}
