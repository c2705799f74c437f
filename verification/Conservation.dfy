/** Weighing a cluster.  One family of sums serves two purposes: counting the occurrences of a
    word that are under way or counted, and measuring the work that is left to do. */
module Conservation {
  import opened Routing
  import opened Text
  import opened Options
  import opened Pipeline

  /** Occ(x) weighs a tuple by the times x will be counted for it; Effort(p) by the steps its
      descendants can still take when it is p moves away from being processed. */
  datatype Meter = Occ(x: string) | Effort(moves: nat)

  function After(m: Meter, moves: nat): Meter {
    if m.Occ? then m else Effort(moves)
  }

  /** Weight of a tuple on the way from tier `edge` to the next one. */
  function TupleLoad(m: Meter, edge: int, t: Tuple): nat {
    match m
    case Occ(x) =>
      if edge == SPOUTS then Occurrences(x, Words(Key(t)))
      else if edge == SPLITTERS && Key(t) == x then 1
      else 0
    case Effort(moves) =>
      moves + if edge == SPOUTS then 12 * |Words(Key(t))| else if edge == SPLITTERS then 6 else 0
  }

  function Load(m: Meter, edge: int, b: Batch): nat {
    if b == [] then 0 else TupleLoad(m, edge, b[0]) + Load(m, edge, b[1..])
  }

  function ChannelLoad(m: Meter, edge: int, c: seq<Batch>): nat {
    if c == [] then 0 else Load(m, edge, c[0]) + ChannelLoad(m, edge, c[1..])
  }

  function InboxLoad(m: Meter, edge: int, cs: seq<seq<Batch>>): nat {
    if cs == [] then 0 else ChannelLoad(m, edge, cs[0]) + InboxLoad(m, edge, cs[1..])
  }

  function PendingLoad(m: Meter, edge: int, es: seq<Envelope>): nat {
    if es == [] then 0 else Load(m, edge, es[0].batch) + PendingLoad(m, edge, es[1..])
  }

  function Counted(m: Meter, tier: nat, w: Worker): nat {
    if m.Occ? && tier == COUNTERS then CountOf(w.counts, m.x) else 0
  }

  function WorkerLoad(m: Meter, tier: nat, w: Worker): nat {
    Load(After(m, 6), tier, w.outData) + PendingLoad(After(m, 5), tier, w.pending)
    + InboxLoad(After(m, 4), tier - 1, w.inbox) + Load(After(m, 3), tier - 1, w.arriving)
    + Load(After(m, 2), tier - 1, w.inData) + Load(After(m, 1), tier - 1, w.local) + Counted(m, tier, w)
  }

  function TierLoad(m: Meter, tier: nat, ws: seq<Worker>): nat {
    if ws == [] then 0 else WorkerLoad(m, tier, ws[0]) + TierLoad(m, tier, ws[1..])
  }

  function Total(m: Meter, s: Cluster): nat
    requires |s.tiers| == 4
  {
    TierLoad(m, 0, s.tiers[0]) + TierLoad(m, 1, s.tiers[1]) + TierLoad(m, 2, s.tiers[2]) + TierLoad(m, 3, s.tiers[3])
  }

  // ---- sums under change ----

  lemma {:induction false} LoadConcat(m: Meter, edge: int, a: Batch, b: Batch)
    ensures Load(m, edge, a + b) == Load(m, edge, a) + Load(m, edge, b)
  {
    if a == [] {
      assert a + b == b;
    } else {
      LoadConcat(m, edge, a[1..], b);
      assert (a + b)[0] == a[0] && (a + b)[1..] == a[1..] + b;
    }
  }

  lemma {:induction false} ChannelLoadAppend(m: Meter, edge: int, c: seq<Batch>, b: Batch)
    ensures ChannelLoad(m, edge, c + [b]) == ChannelLoad(m, edge, c) + Load(m, edge, b)
  {
    if c == [] {
      assert c + [b] == [b] && [b][1..] == [];
    } else {
      ChannelLoadAppend(m, edge, c[1..], b);
      assert (c + [b])[0] == c[0] && (c + [b])[1..] == c[1..] + [b];
    }
  }

  lemma {:induction false} InboxLoadUpdate(m: Meter, edge: int, cs: seq<seq<Batch>>, j: nat, c: seq<Batch>)
    requires j < |cs|
    ensures InboxLoad(m, edge, cs[j := c])
         == InboxLoad(m, edge, cs) - ChannelLoad(m, edge, cs[j]) + ChannelLoad(m, edge, c)
  {
    if j == 0 {
      assert cs[0 := c][1..] == cs[1..];
    } else {
      InboxLoadUpdate(m, edge, cs[1..], j - 1, c);
      assert cs[j := c][1..] == cs[1..][j - 1 := c];
    }
  }

  lemma {:induction false} TierLoadUpdate(m: Meter, tier: nat, ws: seq<Worker>, i: nat, w: Worker)
    requires i < |ws|
    ensures TierLoad(m, tier, ws[i := w])
         == TierLoad(m, tier, ws) - WorkerLoad(m, tier, ws[i]) + WorkerLoad(m, tier, w)
  {
    if i == 0 {
      assert ws[0 := w][1..] == ws[1..];
    } else {
      TierLoadUpdate(m, tier, ws[1..], i - 1, w);
      assert ws[i := w][1..] == ws[1..][i - 1 := w];
    }
  }

  lemma TotalUpdate(m: Meter, s: Cluster, tier: nat, i: nat, w: Worker)
    requires |s.tiers| == 4 && Has(s, tier, i)
    ensures Total(m, Update(s, tier, i, w))
         == Total(m, s) - WorkerLoad(m, tier, s.tiers[tier][i]) + WorkerLoad(m, tier, w)
  {
    TierLoadUpdate(m, tier, s.tiers[tier], i, w);
  }

  // ---- routing keeps the weight ----

  /** Tuples that go to connection d or a later one. */
  function Later(b: Batch, n: nat, d: nat): Batch
    requires n > 0
  {
    if b == [] then [] else (if Home(Key(b[0]), n) >= d then [b[0]] else []) + Later(b[1..], n, d)
  }

  lemma {:induction false} LaterSplits(m: Meter, edge: int, b: Batch, n: nat, d: nat)
    requires n > 0
    ensures Load(m, edge, Later(b, n, d)) == Load(m, edge, Part(b, n, d)) + Load(m, edge, Later(b, n, d + 1))
    ensures d == 0 ==> Later(b, n, d) == b
    ensures d >= n ==> Later(b, n, d) == []
  {
    if b != [] {
      LaterSplits(m, edge, b[1..], n, d);
      assert Later(b, n, d)[if Home(Key(b[0]), n) >= d then 1 else 0..] == Later(b[1..], n, d);
      assert Part(b, n, d)[if Home(Key(b[0]), n) == d then 1 else 0..] == Part(b[1..], n, d);
      assert Later(b, n, d + 1)[if Home(Key(b[0]), n) >= d + 1 then 1 else 0..] == Later(b[1..], n, d + 1);
    }
  }

  lemma {:induction false} RouteFromLoad(m: Meter, edge: int, b: Batch, n: nat, d: nat)
    requires n > 0 && d <= n
    ensures PendingLoad(m, edge, RouteFrom(b, n, d)) == Load(m, edge, Later(b, n, d))
    decreases n - d
  {
    LaterSplits(m, edge, b, n, d);
    if d < n {
      RouteFromLoad(m, edge, b, n, d + 1);
      if Part(b, n, d) == [] {
        assert RouteFrom(b, n, d) == RouteFrom(b, n, d + 1);
      } else {
        assert RouteFrom(b, n, d)[1..] == RouteFrom(b, n, d + 1);
      }
    }
  }

  lemma RouteLoad(m: Meter, tier: nat, b: Batch, n: nat, choice: nat)
    requires n > 0
    ensures PendingLoad(m, tier, Route(tier, b, n, choice)) == Load(m, tier, b)
  {
    if tier == SPOUTS {
      assert Route(tier, b, n, choice)[1..] == [];
    } else {
      RouteFromLoad(m, tier, b, n, 0);
      LaterSplits(m, tier, b, n, 0);
    }
  }

  /** A move towards the bolt saves one unit of effort per tuple and no occurrence. */
  lemma {:induction false} MoveSaves(m: Meter, edge: int, b: Batch, moves: nat)
    ensures Load(After(m, moves + 1), edge, b) == Load(After(m, moves), edge, b) + if m.Occ? then 0 else |b|
  {
    if b != [] {
      MoveSaves(m, edge, b[1..], moves);
    }
  }

  lemma SingleLoad(m: Meter, edge: int, t: Tuple)
    ensures Load(m, edge, [t]) == TupleLoad(m, edge, t)
  {
    assert [t][1..] == [];
  }

  // ---- the bolts ----

  lemma {:induction false} SplitLoad(m: Meter, id: int, ws: seq<string>)
    requires m.Effort? ==> m.moves == 6
    ensures Load(m, SPLITTERS, SplitOutputs(id, ws)) == if m.Occ? then Occurrences(m.x, ws) else 12 * |ws|
    decreases |ws|
  {
    if ws != [] {
      SplitLoad(m, id + 1, ws[1..]);
      assert SplitOutputs(id, ws)[1..] == SplitOutputs(id + 1, ws[1..]);
    }
  }

  /** Running a bolt on a tuple replaces the weight of the tuple by that of its outputs and of
      what was counted; one unit of effort is used up. */
  lemma BoltLoad(m: Meter, tier: nat, w: Worker, t: Tuple)
    requires tier == SPLITTERS || tier == COUNTERS || tier == PRINTERS
    ensures WorkerLoad(m, tier, RunOnTuple(tier, w, t)) + (if m.Occ? then 0 else 1)
         == WorkerLoad(m, tier, w) + TupleLoad(After(m, 1), tier - 1, t)
  {
    if tier == SPLITTERS {
      SplitLoad(After(m, 6), t.id, Words(Key(t)));
      LoadConcat(After(m, 6), tier, w.outData, SplitOutputs(t.id, Words(Key(t))));
    } else if tier == COUNTERS {
      var r := CountOutput(t, CountOf(w.counts, Key(t)) + 1);
      LoadConcat(After(m, 6), tier, w.outData, [r]);
      SingleLoad(After(m, 6), tier, r);
    }
  }

  // ---- one step ----

  /** Steps inside a worker conserve occurrences and strictly use up effort. */
  lemma DrainLoad(m: Meter, tier: nat, w: Worker, next: nat, k: nat, choice: nat)
    requires StepWorker(tier, w, next, Drain(k, choice)).Some?
    ensures WorkerLoad(m, tier, StepWorker(tier, w, next, Drain(k, choice)).value)
          + (if m.Occ? then 0 else k) == WorkerLoad(m, tier, w)
  {
    assert w.outData == w.outData[..k] + w.outData[k..];
    LoadConcat(After(m, 6), tier, w.outData[..k], w.outData[k..]);
    RouteLoad(After(m, 5), tier, w.outData[..k], next, choice);
    MoveSaves(m, tier, w.outData[..k], 5);
  }

  lemma ReceiveLoad(m: Meter, tier: nat, w: Worker, from: nat)
    requires StepWorker(tier, w, 0, Receive(from)).Some?
    ensures WorkerLoad(m, tier, StepWorker(tier, w, 0, Receive(from)).value)
          + (if m.Occ? then 0 else |w.inbox[from][0]|) == WorkerLoad(m, tier, w)
  {
    InboxLoadUpdate(After(m, 4), tier - 1, w.inbox, from, w.inbox[from][1..]);
    MoveSaves(m, tier - 1, w.inbox[from][0], 3);
  }

  lemma PushLoad(m: Meter, tier: nat, w: Worker)
    requires StepWorker(tier, w, 0, Push).Some?
    ensures WorkerLoad(m, tier, StepWorker(tier, w, 0, Push).value)
          + (if m.Occ? then 0 else 1) == WorkerLoad(m, tier, w)
  {
    LoadConcat(After(m, 2), tier - 1, w.inData, [w.arriving[0]]);
    SingleLoad(After(m, 2), tier - 1, w.arriving[0]);
  }

  lemma LocalLoad(m: Meter, tier: nat, w: Worker, next: nat, step: Local)
    requires tier < 4 && StepWorker(tier, w, next, step).Some?
    requires tier == SPOUTS ==> !step.Process?
    ensures WorkerLoad(m, tier, StepWorker(tier, w, next, step).value)
          + (if m.Occ? then 0 else if step.Receive? then |w.inbox[step.from][0]| else 1)
         <= WorkerLoad(m, tier, w)
    ensures m.Occ? ==> WorkerLoad(m, tier, StepWorker(tier, w, next, step).value) == WorkerLoad(m, tier, w)
  {
    match step
    case Drain(k, choice) => DrainLoad(m, tier, w, next, k, choice);
    case Receive(from) => ReceiveLoad(m, tier, w, from);
    case Push => PushLoad(m, tier, w);
    case Take => MoveSaves(m, tier - 1, w.inData, 1);
    case Process => BoltLoad(m, tier, w.(local := w.local[1..]), w.local[0]);
  }

  lemma SendLoad(m: Meter, s: Cluster, tier: nat, i: nat)
    requires |s.tiers| == 4 && Apply(s, Send(tier, i)).Some?
    ensures Total(m, Apply(s, Send(tier, i)).value)
          + (if m.Occ? then 0 else |s.tiers[tier][i].pending[0].batch|) == Total(m, s)
  {
    var w := s.tiers[tier][i];
    var e := w.pending[0];
    var v := s.tiers[tier + 1][e.dest];
    var sent := w.(pending := w.pending[1..]);
    TotalUpdate(m, s, tier, i, sent);
    DeliverLoad(m, tier, v, i, e.batch);
    TotalUpdate(m, Update(s, tier, i, sent), tier + 1, e.dest, Deliver(v, i, e.batch));
    assert WorkerLoad(m, tier, w) == WorkerLoad(m, tier, sent) + Load(After(m, 5), tier, e.batch);
    MoveSaves(m, tier, e.batch, 4);
  }

  lemma DeliverLoad(m: Meter, tier: nat, v: Worker, i: nat, b: Batch)
    requires i < |v.inbox|
    ensures WorkerLoad(m, tier + 1, Deliver(v, i, b)) == WorkerLoad(m, tier + 1, v) + Load(After(m, 4), tier, b)
  {
    ChannelLoadAppend(After(m, 4), tier, v.inbox[i], b);
    InboxLoadUpdate(After(m, 4), tier, v.inbox, i, v.inbox[i] + [b]);
  }

  lemma EmitLoad(m: Meter, s: Cluster, i: nat, id: int, line: string)
    requires |s.tiers| == 4 && Has(s, SPOUTS, i)
    ensures Total(m, Apply(s, Emit(i, id, line)).value)
         == Total(m, s) + TupleLoad(After(m, 6), SPOUTS, RawTuple(id, [line]))
  {
    var w := s.tiers[SPOUTS][i];
    LoadConcat(After(m, 6), SPOUTS, w.outData, [RawTuple(id, [line])]);
    SingleLoad(After(m, 6), SPOUTS, RawTuple(id, [line]));
    TotalUpdate(m, s, SPOUTS, i, w.(outData := w.outData + [RawTuple(id, [line])]));
  }

  /** Spouts have no input, so their process thread never runs a bolt. */
  ghost predicate SpoutsQuiet(s: Cluster) {
    |s.tiers| == 4 &&
    forall i :: 0 <= i < |s.tiers[0]| ==>
      var w := s.tiers[0][i]; w.inbox == [] && w.arriving == w.inData == w.local == []
  }

  lemma StepKeepsSpoutsQuiet(s: Cluster, a: Action)
    requires SpoutsQuiet(s) && Apply(s, a).Some?
    ensures SpoutsQuiet(Apply(s, a).value)
  {
  }

  lemma AtLoad(m: Meter, s: Cluster, tier: nat, i: nat, step: Local)
    requires SpoutsQuiet(s) && Apply(s, At(tier, i, step)).Some?
    ensures Total(m, Apply(s, At(tier, i, step)).value)
          + (if m.Occ? then 0 else if step.Receive? then |s.tiers[tier][i].inbox[step.from][0]| else 1)
         <= Total(m, s)
    ensures m.Occ? ==> Total(m, Apply(s, At(tier, i, step)).value) == Total(m, s)
  {
    var w := s.tiers[tier][i];
    LocalLoad(m, tier, w, Below(s, tier), step);
    TotalUpdate(m, s, tier, i, StepWorker(tier, w, Below(s, tier), step).value);
  }

  /** Conservation: only reading a line changes how often x is under way or counted. */
  lemma StepConserves(x: string, s: Cluster, a: Action)
    requires SpoutsQuiet(s) && Apply(s, a).Some?
    ensures |Apply(s, a).value.tiers| == 4
    ensures Total(Occ(x), Apply(s, a).value)
         == Total(Occ(x), s) + if a.Emit? then Occurrences(x, Words(a.line)) else 0
  {
    match a
    case Emit(i, id, line) => EmitLoad(Occ(x), s, i, id, line);
    case Send(tier, i) => SendLoad(Occ(x), s, tier, i);
    case At(tier, i, step) => AtLoad(Occ(x), s, tier, i, step);
  }
}
