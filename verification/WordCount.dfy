/** What the word-count topology promises: every interleaving counts like the sequential
    program, and the running counts of a word reach one printer in order. */
module WordCount {
  import opened Collections
  import opened Routing
  import opened Text
  import opened Options
  import opened Pipeline
  import opened Conservation

  // ---- where tuples may be ----

  /** Everything on its way into the bolt of instance i belongs on instance i of n. */
  ghost predicate InboundHome(w: Worker, n: nat, i: nat)
    requires n > 0
  {
    AllHome(w.arriving, n, i) && AllHome(w.inData, n, i) && AllHome(w.local, n, i) &&
    forall j, b :: 0 <= j < |w.inbox| && b in w.inbox[j] ==> AllHome(b, n, i)
  }

  ghost predicate SplitterOk(w: Worker, counters: nat)
    requires counters > 0
  {
    forall e :: e in w.pending ==> e.dest < counters && AllHome(e.batch, counters, e.dest)
  }

  ghost predicate CounterOk(w: Worker, i: nat, counters: nat, printers: nat)
    requires counters > 0 && printers > 0
  {
    InboundHome(w, counters, i) && AllHome(w.outData, counters, i) &&
    (forall e :: e in w.pending ==>
      e.dest < printers && AllHome(e.batch, printers, e.dest) && AllHome(e.batch, counters, i)) &&
    forall x :: x in w.counts ==> Home(x, counters) == i
  }

  ghost predicate PrinterOk(w: Worker, i: nat, counters: nat, printers: nat)
    requires counters > 0 && printers > 0
  {
    InboundHome(w, printers, i) && AllHome(w.printed, printers, i) && |w.inbox| == counters &&
    forall j, b :: 0 <= j < |w.inbox| && b in w.inbox[j] ==> AllHome(b, counters, j)
  }

  ghost predicate WorkerOk(tier: nat, i: nat, w: Worker, counters: nat, printers: nat)
    requires counters > 0 && printers > 0
  {
    (tier == SPLITTERS ==> SplitterOk(w, counters)) &&
    (tier == COUNTERS ==> CounterOk(w, i, counters, printers)) &&
    (tier == PRINTERS ==> PrinterOk(w, i, counters, printers)) &&
    (tier == SPOUTS ==> w.inbox == [] && w.arriving == w.inData == w.local == [])
  }

  ghost predicate Placed(s: Cluster) {
    |s.tiers| == 4 && |s.tiers[COUNTERS]| > 0 && |s.tiers[PRINTERS]| > 0 &&
    forall tier: nat, i: nat :: Has(s, tier, i) ==>
      WorkerOk(tier, i, s.tiers[tier][i], |s.tiers[COUNTERS]|, |s.tiers[PRINTERS]|)
  }

  lemma UpdateKeepsPlaced(s: Cluster, tier: nat, i: nat, w: Worker)
    requires Placed(s) && Has(s, tier, i)
    requires WorkerOk(tier, i, w, |s.tiers[COUNTERS]|, |s.tiers[PRINTERS]|)
    ensures Placed(Update(s, tier, i, w))
  {
  }

  lemma DrainKeepsPlaced(tier: nat, i: nat, w: Worker, counters: nat, printers: nat, next: nat, k: nat, choice: nat)
    requires counters > 0 && printers > 0
    requires WorkerOk(tier, i, w, counters, printers)
    requires tier == SPLITTERS ==> next == counters
    requires tier == COUNTERS ==> next == printers
    requires StepWorker(tier, w, next, Drain(k, choice)).Some?
    ensures WorkerOk(tier, i, StepWorker(tier, w, next, Drain(k, choice)).value, counters, printers)
  {
    var v := StepWorker(tier, w, next, Drain(k, choice)).value;
    if tier == SPLITTERS || tier == COUNTERS {
      var batch := w.outData[..k];
      FieldRouteDest(batch, next, 0);
      if tier == COUNTERS {
        assert AllHome(batch, counters, i);
        assert forall e :: e in v.pending ==> AllHome(e.batch, counters, i);
      }
    }
  }

  lemma ReceiveKeepsPlaced(tier: nat, i: nat, w: Worker, counters: nat, printers: nat, from: nat)
    requires counters > 0 && printers > 0
    requires WorkerOk(tier, i, w, counters, printers)
    requires StepWorker(tier, w, 0, Receive(from)).Some?
    ensures WorkerOk(tier, i, StepWorker(tier, w, 0, Receive(from)).value, counters, printers)
  {
    assert w.inbox[from][0] in w.inbox[from];
  }

  lemma PushKeepsPlaced(tier: nat, i: nat, w: Worker, counters: nat, printers: nat)
    requires counters > 0 && printers > 0
    requires WorkerOk(tier, i, w, counters, printers)
    requires StepWorker(tier, w, 0, Push).Some?
    ensures WorkerOk(tier, i, StepWorker(tier, w, 0, Push).value, counters, printers)
  {
    assert w.arriving[0] in w.arriving;
  }

  lemma ProcessKeepsPlaced(tier: nat, i: nat, w: Worker, counters: nat, printers: nat)
    requires counters > 0 && printers > 0
    requires WorkerOk(tier, i, w, counters, printers)
    requires StepWorker(tier, w, 0, Process).Some?
    ensures WorkerOk(tier, i, StepWorker(tier, w, 0, Process).value, counters, printers)
  {
    assert w.local[0] in w.local;
  }

  lemma LocalKeepsPlaced(tier: nat, i: nat, w: Worker, counters: nat, printers: nat, next: nat, step: Local)
    requires counters > 0 && printers > 0
    requires WorkerOk(tier, i, w, counters, printers)
    requires tier == SPLITTERS ==> next == counters
    requires tier == COUNTERS ==> next == printers
    requires StepWorker(tier, w, next, step).Some?
    ensures WorkerOk(tier, i, StepWorker(tier, w, next, step).value, counters, printers)
  {
    match step
    case Drain(k, choice) => DrainKeepsPlaced(tier, i, w, counters, printers, next, k, choice);
    case Receive(from) => ReceiveKeepsPlaced(tier, i, w, counters, printers, from);
    case Push => PushKeepsPlaced(tier, i, w, counters, printers);
    case Take =>
    case Process => ProcessKeepsPlaced(tier, i, w, counters, printers);
  }

  lemma SendKeepsPlaced(s: Cluster, tier: nat, i: nat)
    requires Placed(s) && Apply(s, Send(tier, i)).Some?
    ensures Placed(Apply(s, Send(tier, i)).value)
  {
    var w := s.tiers[tier][i];
    var e := w.pending[0];
    assert e in w.pending;
    var v := s.tiers[tier + 1][e.dest];
    var sent := w.(pending := w.pending[1..]);
    assert WorkerOk(tier, i, w, |s.tiers[COUNTERS]|, |s.tiers[PRINTERS]|);
    UpdateKeepsPlaced(s, tier, i, sent);
    UpdateKeepsPlaced(Update(s, tier, i, sent), tier + 1, e.dest, Deliver(v, i, e.batch));
  }

  lemma StepKeepsPlaced(s: Cluster, a: Action)
    requires Placed(s) && Apply(s, a).Some?
    ensures Placed(Apply(s, a).value)
  {
    match a
    case Emit(i, id, line) =>
      assert WorkerOk(SPOUTS, i, s.tiers[SPOUTS][i], |s.tiers[COUNTERS]|, |s.tiers[PRINTERS]|);
      UpdateKeepsPlaced(s, SPOUTS, i,
        s.tiers[SPOUTS][i].(outData := s.tiers[SPOUTS][i].outData + [RawTuple(id, [line])]));
    case Send(tier, i) => SendKeepsPlaced(s, tier, i);
    case At(tier, i, step) =>
      var w := s.tiers[tier][i];
      LocalKeepsPlaced(tier, i, w, |s.tiers[COUNTERS]|, |s.tiers[PRINTERS]|, Below(s, tier), step);
      UpdateKeepsPlaced(s, tier, i, StepWorker(tier, w, Below(s, tier), step).value);
  }

  // ---- the trail of one word from its counter to its printer ----

  function OfChannel(x: string, c: seq<Batch>): seq<seq<string>> {
    if c == [] then [] else Of(x, c[0]) + OfChannel(x, c[1..])
  }

  /** The results a sequential counter would have printed for x after k occurrences. */
  function Results(x: string, k: nat): seq<seq<string>> {
    if k == 0 then [] else Results(x, k - 1) + [[x, Decimal(k)]]
  }

  /** All results for x that left its counter, oldest first: printed ones, those queued at
      printer p, those on the connection from counter c, those c still has to send. */
  function Trail(x: string, c: nat, p: nat, counter: Worker, printer: Worker): seq<seq<string>>
    requires c < |printer.inbox|
  {
    Of(x, printer.printed) + (Of(x, printer.local) + (Of(x, printer.inData) + (Of(x, printer.arriving)
    + (OfChannel(x, printer.inbox[c]) + (Of(x, ToDest(counter.pending, p)) + Of(x, counter.outData))))))
  }

  ghost predicate InOrder(x: string, s: Cluster)
    requires Placed(s)
  {
    var c, p := Home(x, |s.tiers[COUNTERS]|), Home(x, |s.tiers[PRINTERS]|);
    assert WorkerOk(PRINTERS, p, s.tiers[PRINTERS][p], |s.tiers[COUNTERS]|, |s.tiers[PRINTERS]|) by {
      assert Has(s, PRINTERS, p);
    }
    Trail(x, c, p, s.tiers[COUNTERS][c], s.tiers[PRINTERS][p])
      == Results(x, CountOf(s.tiers[COUNTERS][c].counts, x))
  }

  lemma Shift<T>(a: seq<T>, h: seq<T>, b: seq<T>, rest: seq<T>)
    ensures a + ((h + b) + rest) == (a + h) + (b + rest)
  {
  }

  lemma {:induction false} OfChannelAppend(x: string, c: seq<Batch>, b: Batch)
    ensures OfChannel(x, c + [b]) == OfChannel(x, c) + Of(x, b)
  {
    if c == [] {
      assert c + [b] == [b] && [b][1..] == [];
    } else {
      OfChannelAppend(x, c[1..], b);
      assert (c + [b])[0] == c[0] && (c + [b])[1..] == c[1..] + [b];
      Associative(Of(x, c[0]), OfChannel(x, c[1..]), Of(x, b));
    }
  }

  lemma OfHead(x: string, b: Batch)
    requires b != []
    ensures Of(x, b) == Of(x, [b[0]]) + Of(x, b[1..])
  {
    assert b == [b[0]] + b[1..];
    OfConcat(x, [b[0]], b[1..]);
  }

  lemma OfForeign(x: string, b: Batch, n: nat, d: nat)
    requires n > 0 && AllHome(b, n, d) && d != Home(x, n)
    ensures Of(x, b) == []
  {
    OfNone(x, b);
  }

  // ---- steps of the printer ----

  lemma PrinterReceives(x: string, c: nat, p: nat, counter: Worker, w: Worker, counters: nat, printers: nat, from: nat)
    requires counters > 0 && printers > 0 && c == Home(x, counters) && p == Home(x, printers)
    requires PrinterOk(w, p, counters, printers) && StepWorker(PRINTERS, w, 0, Receive(from)).Some?
    ensures var v := StepWorker(PRINTERS, w, 0, Receive(from)).value;
      |v.inbox| == counters && Trail(x, c, p, counter, v) == Trail(x, c, p, counter, w)
  {
    if from == c {
      var tail := Of(x, ToDest(counter.pending, p)) + Of(x, counter.outData);
      Shift([], Of(x, w.inbox[c][0]), OfChannel(x, w.inbox[c][1..]), tail);
    } else {
      assert w.inbox[from][0] in w.inbox[from];
      OfForeign(x, w.inbox[from][0], counters, from);
    }
  }

  lemma PrinterPushes(x: string, c: nat, p: nat, counter: Worker, w: Worker)
    requires c < |w.inbox| && StepWorker(PRINTERS, w, 0, Push).Some?
    ensures var v := StepWorker(PRINTERS, w, 0, Push).value;
      v.inbox == w.inbox && Trail(x, c, p, counter, v) == Trail(x, c, p, counter, w)
  {
    var channel := OfChannel(x, w.inbox[c]) + (Of(x, ToDest(counter.pending, p)) + Of(x, counter.outData));
    OfHead(x, w.arriving);
    OfConcat(x, w.inData, [w.arriving[0]]);
    Shift(Of(x, w.inData), Of(x, [w.arriving[0]]), Of(x, w.arriving[1..]), channel);
  }

  lemma PrinterTakes(x: string, c: nat, p: nat, counter: Worker, w: Worker)
    requires c < |w.inbox| && StepWorker(PRINTERS, w, 0, Take).Some?
    ensures var v := StepWorker(PRINTERS, w, 0, Take).value;
      v.inbox == w.inbox && Trail(x, c, p, counter, v) == Trail(x, c, p, counter, w)
  {
    var channel := OfChannel(x, w.inbox[c]) + (Of(x, ToDest(counter.pending, p)) + Of(x, counter.outData));
    Shift([], Of(x, w.inData), [], Of(x, w.arriving) + channel);
  }

  lemma PrinterPrints(x: string, c: nat, p: nat, counter: Worker, w: Worker)
    requires c < |w.inbox| && StepWorker(PRINTERS, w, 0, Process).Some?
    ensures var v := StepWorker(PRINTERS, w, 0, Process).value;
      v.inbox == w.inbox && Trail(x, c, p, counter, v) == Trail(x, c, p, counter, w)
  {
    var channel := OfChannel(x, w.inbox[c]) + (Of(x, ToDest(counter.pending, p)) + Of(x, counter.outData));
    OfHead(x, w.local);
    OfConcat(x, w.printed, [w.local[0]]);
    Shift(Of(x, w.printed), Of(x, [w.local[0]]), Of(x, w.local[1..]),
      Of(x, w.inData) + (Of(x, w.arriving) + channel));
  }

  lemma PrinterStep(x: string, c: nat, p: nat, counter: Worker, w: Worker, counters: nat, printers: nat, step: Local)
    requires counters > 0 && printers > 0 && c == Home(x, counters) && p == Home(x, printers)
    requires PrinterOk(w, p, counters, printers) && StepWorker(PRINTERS, w, 0, step).Some?
    ensures var v := StepWorker(PRINTERS, w, 0, step).value;
      |v.inbox| == counters && Trail(x, c, p, counter, v) == Trail(x, c, p, counter, w)
  {
    match step
    case Receive(from) => PrinterReceives(x, c, p, counter, w, counters, printers, from);
    case Push => PrinterPushes(x, c, p, counter, w);
    case Take => PrinterTakes(x, c, p, counter, w);
    case Process => PrinterPrints(x, c, p, counter, w);
  }

  // ---- steps of the counter ----

  /** Appending to what a counter has queued appends to the trail. */
  lemma TrailAppend<T>(a: seq<T>, b: seq<T>, c: seq<T>, d: seq<T>, e: seq<T>, f: seq<T>, g: seq<T>, r: seq<T>)
    ensures a + (b + (c + (d + (e + (f + (g + r))))))
         == (a + (b + (c + (d + (e + (f + g)))))) + r
  {
    Associative(f, g, r);
    Associative(e, f + g, r);
    Associative(d, e + (f + g), r);
    Associative(c, d + (e + (f + g)), r);
    Associative(b, c + (d + (e + (f + g))), r);
    Associative(a, b + (c + (d + (e + (f + g)))), r);
  }

  /** The messages built from the first k tuples, and the rest, still hold all of x's results. */
  lemma DrainedParts(x: string, out: Batch, printers: nat, p: nat, k: nat)
    requires printers > 0 && p == Home(x, printers) && k <= |out|
    ensures Of(x, ToDest(FieldRoute(out[..k], printers), p)) + Of(x, out[k..]) == Of(x, out)
  {
    assert Of(x, ToDest(FieldRoute(out[..k], printers), p)) == Of(x, out[..k]) by {
      FieldRouteDest(out[..k], printers, p);
      PartOf(x, out[..k], printers, p);
    }
    OfSplit(x, out, k);
  }

  lemma OfSplit(x: string, out: Batch, k: nat)
    requires k <= |out|
    ensures Of(x, out[..k]) + Of(x, out[k..]) == Of(x, out)
  {
    OfConcat(x, out[..k], out[k..]);
    assert out == out[..k] + out[k..];
  }

  lemma CounterDrain(x: string, p: nat, w: Worker, printers: nat, k: nat, choice: nat)
    requires printers > 0 && p == Home(x, printers)
    requires StepWorker(COUNTERS, w, printers, Drain(k, choice)).Some?
    ensures var v := StepWorker(COUNTERS, w, printers, Drain(k, choice)).value;
      Of(x, ToDest(v.pending, p)) + Of(x, v.outData) == Of(x, ToDest(w.pending, p)) + Of(x, w.outData)
  {
    DrainedParts(x, w.outData, printers, p, k);
    assert Of(x, ToDest(w.pending, p)) == [];
  }

  lemma CounterProcess(x: string, c: nat, p: nat, w: Worker, printer: Worker)
    requires c < |printer.inbox| && w.local != []
    requires Trail(x, c, p, w, printer) == Results(x, CountOf(w.counts, x))
    ensures var v := StepWorker(COUNTERS, w, 0, Process).value;
      Trail(x, c, p, v, printer) == Results(x, CountOf(v.counts, x))
  {
    var t := w.local[0];
    var n := CountOf(w.counts, Key(t)) + 1;
    var v := StepWorker(COUNTERS, w, 0, Process).value;
    CounterExtends(x, c, p, w, v, printer, CountOutput(t, n));
    OfSingle(x, CountOutput(t, n));
    if Key(t) == x {
      assert CountOf(v.counts, x) == n;
      assert Results(x, n) == Results(x, n - 1) + [[x, Decimal(n)]];
    } else {
      assert CountOf(v.counts, x) == CountOf(w.counts, x);
    }
  }

  lemma OfSingle(x: string, t: Tuple)
    ensures Of(x, [t]) == if Key(t) == x then [t.data] else []
  {
    assert [t][1..] == [];
  }

  lemma CounterExtends(x: string, c: nat, p: nat, w: Worker, v: Worker, printer: Worker, r: Tuple)
    requires c < |printer.inbox| && v.pending == w.pending && v.outData == w.outData + [r]
    ensures Trail(x, c, p, v, printer) == Trail(x, c, p, w, printer) + Of(x, [r])
  {
    OfConcat(x, w.outData, [r]);
    TrailAppend(Of(x, printer.printed), Of(x, printer.local), Of(x, printer.inData), Of(x, printer.arriving),
      OfChannel(x, printer.inbox[c]), Of(x, ToDest(w.pending, p)), Of(x, w.outData), Of(x, [r]));
  }

  lemma CounterStep(x: string, c: nat, p: nat, w: Worker, printer: Worker, printers: nat, step: Local)
    requires printers > 0 && p == Home(x, printers) && c < |printer.inbox|
    requires StepWorker(COUNTERS, w, printers, step).Some?
    requires Trail(x, c, p, w, printer) == Results(x, CountOf(w.counts, x))
    ensures var v := StepWorker(COUNTERS, w, printers, step).value;
      Trail(x, c, p, v, printer) == Results(x, CountOf(v.counts, x))
  {
    match step
    case Drain(k, choice) => CounterDrain(x, p, w, printers, k, choice);
    case Receive(from) =>
    case Push =>
    case Take =>
    case Process => CounterProcess(x, c, p, w, printer);
  }

  /** A message on its way from the counter of x to the printer of x. */
  lemma SendKeepsTrail(x: string, c: nat, p: nat, w: Worker, printer: Worker)
    requires w.pending != [] && c < |printer.inbox|
    ensures var e := w.pending[0]; var v := w.(pending := w.pending[1..]);
      e.dest == p ==> Trail(x, c, p, v, Deliver(printer, c, e.batch)) == Trail(x, c, p, w, printer)
    ensures var e := w.pending[0]; var v := w.(pending := w.pending[1..]);
      e.dest != p ==> Trail(x, c, p, v, printer) == Trail(x, c, p, w, printer)
  {
    var e := w.pending[0];
    if e.dest == p {
      OfChannelAppend(x, printer.inbox[c], e.batch);
      OfConcat(x, e.batch, ToDest(w.pending[1..], p));
      Shift(OfChannel(x, printer.inbox[c]), Of(x, e.batch), Of(x, ToDest(w.pending[1..], p)), Of(x, w.outData));
    } else {
      assert ToDest(w.pending, p) == ToDest(w.pending[1..], p);
    }
  }

  /** What sending changes at the counter c and at the printer p. */
  lemma SendChanges(s: Cluster, tier: nat, i: nat, c: nat, p: nat)
    requires |s.tiers| == 4 && Apply(s, Send(tier, i)).Some? && Has(s, COUNTERS, c) && Has(s, PRINTERS, p)
    ensures var t, e := Apply(s, Send(tier, i)).value, s.tiers[tier][i].pending[0];
      var w, v := s.tiers[COUNTERS][c], t.tiers[COUNTERS][c];
      && v.counts == w.counts && v.outData == w.outData
      && v.pending == (if tier == COUNTERS && i == c then w.pending[1..] else w.pending)
      && t.tiers[PRINTERS][p] ==
           if tier == COUNTERS && e.dest == p then Deliver(s.tiers[PRINTERS][p], i, e.batch) else s.tiers[PRINTERS][p]
  {
  }

  lemma SendKeepsOrder(x: string, s: Cluster, tier: nat, i: nat)
    requires Placed(s) && InOrder(x, s) && Apply(s, Send(tier, i)).Some?
    ensures Placed(Apply(s, Send(tier, i)).value) && InOrder(x, Apply(s, Send(tier, i)).value)
  {
    SendKeepsPlaced(s, tier, i);
    var c, p := Home(x, |s.tiers[COUNTERS]|), Home(x, |s.tiers[PRINTERS]|);
    var w := s.tiers[tier][i];
    var printer := s.tiers[PRINTERS][p];
    assert WorkerOk(PRINTERS, p, printer, |s.tiers[COUNTERS]|, |s.tiers[PRINTERS]|) by { assert Has(s, PRINTERS, p); }
    SendChanges(s, tier, i, c, p);
    if tier == COUNTERS && i == c {
      SendKeepsTrail(x, c, p, w, printer);
    }
  }

  lemma StepKeepsOrder(x: string, s: Cluster, a: Action)
    requires Placed(s) && InOrder(x, s) && Apply(s, a).Some?
    ensures Placed(Apply(s, a).value) && InOrder(x, Apply(s, a).value)
  {
    StepKeepsPlaced(s, a);
    var c, p := Home(x, |s.tiers[COUNTERS]|), Home(x, |s.tiers[PRINTERS]|);
    var printer := s.tiers[PRINTERS][p];
    assert WorkerOk(PRINTERS, p, printer, |s.tiers[COUNTERS]|, |s.tiers[PRINTERS]|) by { assert Has(s, PRINTERS, p); }
    match a
    case Emit(i, id, line) =>
    case Send(tier, i) => SendKeepsOrder(x, s, tier, i);
    case At(tier, i, step) =>
      if tier == PRINTERS && i == p {
        PrinterStep(x, c, p, s.tiers[COUNTERS][c], printer, |s.tiers[COUNTERS]|, |s.tiers[PRINTERS]|, step);
      } else if tier == COUNTERS && i == c {
        CounterStep(x, c, p, s.tiers[COUNTERS][c], printer, |s.tiers[PRINTERS]|, step);
      }
  }

  // ---- whole runs ----

  lemma {:induction false} IdleLoad(x: string, tier: nat, ws: seq<Worker>)
    requires forall i :: 0 <= i < |ws| ==> Empty(ws[i]) && ws[i].counts == map[]
    ensures TierLoad(Occ(x), tier, ws) == 0
  {
    if ws != [] {
      IdleLoad(x, tier, ws[1..]);
      EmptyInbox(x, tier - 1, ws[0].inbox);
    }
  }

  lemma {:induction false} EmptyInbox(x: string, edge: int, cs: seq<seq<Batch>>)
    requires forall j :: 0 <= j < |cs| ==> cs[j] == []
    ensures InboxLoad(Occ(x), edge, cs) == 0
  {
    if cs != [] {
      EmptyInbox(x, edge, cs[1..]);
    }
  }

  /** What every reachable state satisfies, for every word. */
  ghost predicate Good(x: string, s: Cluster) {
    Placed(s) && SpoutsQuiet(s) && InOrder(x, s) && Total(Occ(x), s) == SequentialCount(x, s.emitted)
  }

  lemma FreshIsEmpty(x: string, spouts: nat, splitters: nat, counters: nat, printers: nat)
    ensures Total(Occ(x), Fresh(spouts, splitters, counters, printers)) == 0
  {
    var s := Fresh(spouts, splitters, counters, printers);
    IdleLoad(x, SPOUTS, s.tiers[SPOUTS]);
    IdleLoad(x, SPLITTERS, s.tiers[SPLITTERS]);
    IdleLoad(x, COUNTERS, s.tiers[COUNTERS]);
    IdleLoad(x, PRINTERS, s.tiers[PRINTERS]);
  }

  lemma FreshIsPlaced(x: string, spouts: nat, splitters: nat, counters: nat, printers: nat)
    requires counters > 0 && printers > 0
    ensures var s := Fresh(spouts, splitters, counters, printers); Placed(s) && SpoutsQuiet(s)
  {
    var s := Fresh(spouts, splitters, counters, printers);
    forall tier: nat, i: nat | Has(s, tier, i) ensures WorkerOk(tier, i, s.tiers[tier][i], counters, printers) {
      assert exists senders: nat :: s.tiers[tier][i] == Idle(senders);
    }
  }

  lemma FreshIsGood(x: string, spouts: nat, splitters: nat, counters: nat, printers: nat)
    requires counters > 0 && printers > 0
    ensures Good(x, Fresh(spouts, splitters, counters, printers))
  {
    var s := Fresh(spouts, splitters, counters, printers);
    FreshIsEmpty(x, spouts, splitters, counters, printers);
    FreshIsPlaced(x, spouts, splitters, counters, printers);
    assert s.tiers[PRINTERS][Home(x, printers)] == Idle(counters);
    assert s.tiers[COUNTERS][Home(x, counters)] == Idle(splitters);
  }

  lemma StepCounts(x: string, s: Cluster, a: Action)
    requires Apply(s, a).Some?
    ensures SequentialCount(x, Apply(s, a).value.emitted)
         == SequentialCount(x, s.emitted) + if a.Emit? then Occurrences(x, Words(a.line)) else 0
  {
    if a.Emit? {
      assert (s.emitted + [a.line])[..|s.emitted|] == s.emitted;
    }
  }

  lemma StepKeepsGood(x: string, s: Cluster, a: Action)
    requires Good(x, s) && Apply(s, a).Some?
    ensures Good(x, Apply(s, a).value)
  {
    StepKeepsSpoutsQuiet(s, a);
    StepConserves(x, s, a);
    StepKeepsOrder(x, s, a);
    StepCounts(x, s, a);
  }

  /** Every run of a fresh topology, whatever the interleaving, stays in good states. */
  lemma {:induction false} RunsStayGood(x: string, s: Cluster, actions: seq<Action>)
    requires Good(x, s) && Run(s, actions).Some?
    ensures Good(x, Run(s, actions).value)
    decreases |actions|
  {
    if actions != [] {
      var before := actions[..|actions| - 1];
      RunsStayGood(x, s, before);
      StepKeepsGood(x, Run(s, before).value, actions[|actions| - 1]);
    }
  }

  // ---- main results ----

  /** The i-th result printed for x is the pair of x and the numeral of i. */
  lemma {:induction false} ResultsAre(x: string, k: nat, i: nat)
    requires 1 <= i <= k
    ensures |Results(x, k)| == k && Results(x, k)[i - 1] == [x, Decimal(i)]
  {
    if i < k {
      ResultsAre(x, k - 1, i);
    } else {
      ResultsPrefix(x, k, k);
    }
  }

  lemma {:induction false} ResultsPrefix(x: string, k: nat, m: nat)
    requires m <= k
    ensures |Results(x, k)| == k && Results(x, k)[..m] == Results(x, m)
  {
    if m < k {
      ResultsPrefix(x, k - 1, m);
      assert Results(x, k)[..m] == Results(x, k - 1)[..m];
    } else if k > 0 {
      ResultsPrefix(x, k - 1, k - 1);
    }
  }

  ghost predicate Reachable(s: Cluster, spouts: nat, splitters: nat, counters: nat, printers: nat) {
    exists actions :: Run(Fresh(spouts, splitters, counters, printers), actions) == Some(s)
  }

  lemma ReachableIsGood(x: string, s: Cluster, spouts: nat, splitters: nat, counters: nat, printers: nat)
    requires counters > 0 && printers > 0 && Reachable(s, spouts, splitters, counters, printers)
    ensures Good(x, s)
  {
    var actions :| Run(Fresh(spouts, splitters, counters, printers), actions) == Some(s);
    FreshIsGood(x, spouts, splitters, counters, printers);
    RunsStayGood(x, Fresh(spouts, splitters, counters, printers), actions);
  }

  /** At any moment of any run a printer that is not the one for x has printed nothing for x,
      and the one for x has printed (x,1), (x,2), ..., (x,m) in exactly this order. */
  lemma PrintedInOrder(x: string, s: Cluster, spouts: nat, splitters: nat, counters: nat, printers: nat, i: nat)
    requires counters > 0 && printers > 0 && Reachable(s, spouts, splitters, counters, printers)
    requires Has(s, PRINTERS, i)
    ensures var printed := Of(x, s.tiers[PRINTERS][i].printed);
      if i == Home(x, |s.tiers[PRINTERS]|) then printed == Results(x, |printed|) else printed == []
  {
    ReachableIsGood(x, s, spouts, splitters, counters, printers);
    var w := s.tiers[PRINTERS][i];
    assert WorkerOk(PRINTERS, i, w, |s.tiers[COUNTERS]|, |s.tiers[PRINTERS]|);
    if i == Home(x, |s.tiers[PRINTERS]|) {
      var c := Home(x, |s.tiers[COUNTERS]|);
      var k := CountOf(s.tiers[COUNTERS][c].counts, x);
      var printed := Of(x, w.printed);
      assert printed <= Results(x, k);
      ResultsPrefix(x, k, k);
      ResultsPrefix(x, k, |printed|);
    } else {
      OfForeign(x, w.printed, |s.tiers[PRINTERS]|, i);
    }
  }

  /** The counter that is not responsible for x never counts it, so key sets are disjoint. */
  lemma CountersDisjoint(s: Cluster, spouts: nat, splitters: nat, counters: nat, printers: nat, i: nat, j: nat)
    requires counters > 0 && printers > 0 && Reachable(s, spouts, splitters, counters, printers)
    requires Has(s, COUNTERS, i) && Has(s, COUNTERS, j) && i != j
    ensures s.tiers[COUNTERS][i].counts.Keys !! s.tiers[COUNTERS][j].counts.Keys
  {
    ReachableIsGood("", s, spouts, splitters, counters, printers);
    assert WorkerOk(COUNTERS, i, s.tiers[COUNTERS][i], |s.tiers[COUNTERS]|, |s.tiers[PRINTERS]|);
    assert WorkerOk(COUNTERS, j, s.tiers[COUNTERS][j], |s.tiers[COUNTERS]|, |s.tiers[PRINTERS]|);
  }

  /** Load of the counter tier: never less than what the counter of x has counted, and exactly
      that when the tier is empty. */
  lemma {:induction false} CounterTierLoad(x: string, ws: seq<Worker>, c: nat)
    requires c < |ws|
    requires forall i :: 0 <= i < |ws| && i != c ==> CountOf(ws[i].counts, x) == 0
    ensures TierLoad(Occ(x), COUNTERS, ws) >= CountOf(ws[c].counts, x)
    ensures (forall i :: 0 <= i < |ws| ==> Empty(ws[i])) ==>
              TierLoad(Occ(x), COUNTERS, ws) == CountOf(ws[c].counts, x)
  {
    if forall i :: 0 <= i < |ws| ==> Empty(ws[i]) {
      EmptyInbox(x, COUNTERS - 1, ws[0].inbox);
      if c == 0 {
        RestLoad(x, ws[1..]);
      }
    }
    if c > 0 {
      CounterTierLoad(x, ws[1..], c - 1);
    }
  }

  lemma {:induction false} RestLoad(x: string, ws: seq<Worker>)
    requires forall i :: 0 <= i < |ws| ==> Empty(ws[i]) && CountOf(ws[i].counts, x) == 0
    ensures TierLoad(Occ(x), COUNTERS, ws) == 0
  {
    if ws != [] {
      EmptyInbox(x, COUNTERS - 1, ws[0].inbox);
      RestLoad(x, ws[1..]);
    }
  }

  lemma {:induction false} EmptyTier(x: string, tier: nat, ws: seq<Worker>)
    requires tier != COUNTERS && forall i :: 0 <= i < |ws| ==> Empty(ws[i])
    ensures TierLoad(Occ(x), tier, ws) == 0
  {
    if ws != [] {
      EmptyInbox(x, tier - 1, ws[0].inbox);
      EmptyTier(x, tier, ws[1..]);
    }
  }

  /** No interleaving over-counts: a count never exceeds what the sequential program would have
      counted on the lines read so far. */
  lemma NeverAhead(x: string, s: Cluster, spouts: nat, splitters: nat, counters: nat, printers: nat, i: nat)
    requires counters > 0 && printers > 0 && Reachable(s, spouts, splitters, counters, printers)
    requires Has(s, COUNTERS, i)
    ensures CountOf(s.tiers[COUNTERS][i].counts, x) <= SequentialCount(x, s.emitted)
  {
    ReachableIsGood(x, s, spouts, splitters, counters, printers);
    OnlyHomeCounts(x, s);
    CounterTierLoad(x, s.tiers[COUNTERS], Home(x, |s.tiers[COUNTERS]|));
  }

  lemma OnlyHomeCounts(x: string, s: Cluster)
    requires Placed(s)
    ensures forall i :: 0 <= i < |s.tiers[COUNTERS]| && i != Home(x, |s.tiers[COUNTERS]|) ==>
              CountOf(s.tiers[COUNTERS][i].counts, x) == 0
  {
    forall i: nat | Has(s, COUNTERS, i) && i != Home(x, |s.tiers[COUNTERS]|)
      ensures CountOf(s.tiers[COUNTERS][i].counts, x) == 0
    {
      assert WorkerOk(COUNTERS, i, s.tiers[COUNTERS][i], |s.tiers[COUNTERS]|, |s.tiers[PRINTERS]|);
    }
  }

  /** The refinement theorem.  Whenever the cluster is quiescent, the counter responsible for x
      holds the count the sequential program computes, no other counter knows x, and the printer
      responsible for x has printed every running count exactly once, in order. */
  lemma QuiescentIsSequential(x: string, s: Cluster, spouts: nat, splitters: nat, counters: nat, printers: nat)
    requires counters > 0 && printers > 0 && Reachable(s, spouts, splitters, counters, printers)
    requires Quiescent(s)
    ensures |s.tiers| == 4 && |s.tiers[COUNTERS]| > 0 && |s.tiers[PRINTERS]| > 0
    ensures var home := Home(x, |s.tiers[COUNTERS]|);
      forall i :: 0 <= i < |s.tiers[COUNTERS]| ==>
        (CountOf(s.tiers[COUNTERS][i].counts, x) == if i == home then SequentialCount(x, s.emitted) else 0)
    ensures Of(x, s.tiers[PRINTERS][Home(x, |s.tiers[PRINTERS]|)].printed)
         == Results(x, SequentialCount(x, s.emitted))
  {
    ReachableIsGood(x, s, spouts, splitters, counters, printers);
    var c, p := Home(x, |s.tiers[COUNTERS]|), Home(x, |s.tiers[PRINTERS]|);
    assert Has(s, COUNTERS, c) && Has(s, PRINTERS, p);
    OnlyHomeCounts(x, s);
    QuiescentTotal(x, s, c);
  }

  /** With nothing under way, the only weight is in the counts. */
  lemma QuiescentTotal(x: string, s: Cluster, c: nat)
    requires |s.tiers| == 4 && Quiescent(s) && c < |s.tiers[COUNTERS]|
    requires forall i :: 0 <= i < |s.tiers[COUNTERS]| && i != c ==> CountOf(s.tiers[COUNTERS][i].counts, x) == 0
    ensures Total(Occ(x), s) == CountOf(s.tiers[COUNTERS][c].counts, x)
  {
    forall tier: nat, i: nat | Has(s, tier, i) ensures Empty(s.tiers[tier][i]) {}
    EmptyTier(x, SPOUTS, s.tiers[SPOUTS]);
    EmptyTier(x, SPLITTERS, s.tiers[SPLITTERS]);
    EmptyTier(x, PRINTERS, s.tiers[PRINTERS]);
    CounterTierLoad(x, s.tiers[COUNTERS], c);
  }
}
