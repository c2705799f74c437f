/** Once the spouts stop reading, every run comes to an end, and it can only end quiescent:
    the sequential result of module WordCount is always reached, never just possible. */
module Draining {
  import opened Routing
  import opened Text
  import opened Options
  import opened Pipeline
  import opened Conservation
  import opened WordCount

  /** Connections match the tiers, no message is empty, printers send nothing. */
  ghost predicate WorkerWired(tier: nat, w: Worker, above: nat, below: nat) {
    && |w.inbox| == above
    && (forall e :: e in w.pending ==> e.dest < below && e.batch != [])
    && (forall j, b :: 0 <= j < |w.inbox| && b in w.inbox[j] ==> b != [])
    && (tier == PRINTERS ==> w.outData == [] && w.pending == [])
  }

  function Above(s: Cluster, tier: nat): nat {
    if 0 < tier <= |s.tiers| then |s.tiers[tier - 1]| else 0
  }

  ghost predicate Wired(s: Cluster) {
    && SpoutsQuiet(s)
    && (forall tier: nat :: 0 < tier < 4 ==> Has(s, tier, 0))
    && forall tier: nat, i: nat :: Has(s, tier, i) ==>
         WorkerWired(tier, s.tiers[tier][i], Above(s, tier), Below(s, tier))
  }

  lemma UpdateKeepsWired(s: Cluster, tier: nat, i: nat, w: Worker)
    requires Wired(s) && Has(s, tier, i)
    requires WorkerWired(tier, w, Above(s, tier), Below(s, tier))
    requires tier == SPOUTS ==> w.inbox == [] && w.arriving == w.inData == w.local == []
    ensures Wired(Update(s, tier, i, w))
  {
    var t := Update(s, tier, i, w);
    forall k: nat | 0 < k < 4 ensures Has(t, k, 0) {
      assert Has(s, k, 0);
    }
    forall k: nat, j: nat | Has(t, k, j) ensures WorkerWired(k, t.tiers[k][j], Above(t, k), Below(t, k)) {
      assert Above(t, k) == Above(s, k) && Below(t, k) == Below(s, k);
      if (k, j) != (tier, i) {
        assert Has(s, k, j) && t.tiers[k][j] == s.tiers[k][j];
      }
    }
  }

  lemma LocalKeepsWired(tier: nat, w: Worker, above: nat, below: nat, step: Local)
    requires tier < 4 && WorkerWired(tier, w, above, below)
    requires StepWorker(tier, w, below, step).Some?
    requires tier == SPOUTS ==> !step.Process?
    ensures WorkerWired(tier, StepWorker(tier, w, below, step).value, above, below)
  {
    match step
    case Drain(k, choice) =>
      if tier == SPOUTS {
        assert w.outData[..k] != [] && choice % below < below;
        assert Route(tier, w.outData[..k], below, choice) == [Envelope(choice % below, w.outData[..k])];
      } else {
        FieldRouteDest(w.outData[..k], below, 0);
        assert forall e :: e in Route(tier, w.outData[..k], below, choice) ==> e.dest < below && e.batch != [];
      }
    case Receive(from) =>
      var v := StepWorker(tier, w, below, step).value;
      assert forall b :: b in w.inbox[from][1..] ==> b in w.inbox[from];
      assert forall j :: 0 <= j < |v.inbox| ==> v.inbox[j] == if j == from then w.inbox[j][1..] else w.inbox[j];
    case Push =>
    case Take =>
    case Process =>
  }

  lemma SendKeepsWired(s: Cluster, tier: nat, i: nat)
    requires Wired(s) && Apply(s, Send(tier, i)).Some?
    ensures Wired(Apply(s, Send(tier, i)).value)
  {
    var w := s.tiers[tier][i];
    var e := w.pending[0];
    assert WorkerWired(tier, w, Above(s, tier), Below(s, tier));
    assert e in w.pending;
    var sent := w.(pending := w.pending[1..]);
    UpdateKeepsWired(s, tier, i, sent);
    var mid := Update(s, tier, i, sent);
    assert Above(mid, tier + 1) == Above(s, tier + 1) && Below(mid, tier + 1) == Below(s, tier + 1);
    UpdateKeepsWired(mid, tier + 1, e.dest, Deliver(s.tiers[tier + 1][e.dest], i, e.batch));
  }

  lemma UnreadKeepsWired(s: Cluster, line: string)
    requires Wired(s)
    ensures Wired(s.(emitted := s.emitted + [line]))
  {
    var t := s.(emitted := s.emitted + [line]);
    forall k: nat | 0 < k < 4 ensures Has(t, k, 0) {
      assert Has(s, k, 0);
    }
    forall k: nat, j: nat | Has(t, k, j) ensures WorkerWired(k, t.tiers[k][j], Above(t, k), Below(t, k)) {
      assert Has(s, k, j) && Above(t, k) == Above(s, k) && Below(t, k) == Below(s, k);
    }
  }

  lemma StepKeepsWired(s: Cluster, a: Action)
    requires Wired(s) && Apply(s, a).Some?
    ensures Wired(Apply(s, a).value)
  {
    match a
    case Emit(i, id, line) =>
      var w := s.tiers[SPOUTS][i];
      assert WorkerWired(SPOUTS, w, Above(s, SPOUTS), Below(s, SPOUTS));
      var v := w.(outData := w.outData + [RawTuple(id, [line])]);
      assert WorkerWired(SPOUTS, v, Above(s, SPOUTS), Below(s, SPOUTS));
      UpdateKeepsWired(s, SPOUTS, i, v);
      UnreadKeepsWired(Update(s, SPOUTS, i, v), line);
    case Send(tier, i) => SendKeepsWired(s, tier, i);
    case At(tier, i, step) =>
      var w := s.tiers[tier][i];
      assert WorkerWired(tier, w, Above(s, tier), Below(s, tier));
      LocalKeepsWired(tier, w, Above(s, tier), Below(s, tier), step);
      StepKeepsSpoutsQuiet(s, a);
      UpdateKeepsWired(s, tier, i, StepWorker(tier, w, Below(s, tier), step).value);
  }

  /** Every step except reading a line strictly uses up effort. */
  lemma StepUsesEffort(s: Cluster, a: Action)
    requires Wired(s) && Apply(s, a).Some? && !a.Emit?
    ensures |Apply(s, a).value.tiers| == 4
    ensures Total(Effort(0), Apply(s, a).value) < Total(Effort(0), s)
  {
    match a
    case Send(tier, i) =>
      var w := s.tiers[tier][i];
      assert WorkerWired(tier, w, Above(s, tier), Below(s, tier));
      assert w.pending[0] in w.pending;
      SendLoad(Effort(0), s, tier, i);
    case At(tier, i, step) =>
      var w := s.tiers[tier][i];
      assert WorkerWired(tier, w, Above(s, tier), Below(s, tier));
      if step.Receive? {
        assert w.inbox[step.from][0] in w.inbox[step.from];
      }
      AtLoad(Effort(0), s, tier, i, step);
  }

  ghost predicate NoInput(actions: seq<Action>) {
    forall a :: a in actions ==> !a.Emit?
  }

  /** A run without new input is never longer than the effort left at its start, and it does
      not change the lines read. */
  lemma {:induction false} RunsEnd(s: Cluster, actions: seq<Action>)
    requires Wired(s) && NoInput(actions) && Run(s, actions).Some?
    ensures Wired(Run(s, actions).value)
    ensures |actions| + Total(Effort(0), Run(s, actions).value) <= Total(Effort(0), s)
    ensures Run(s, actions).value.emitted == s.emitted
    decreases |actions|
  {
    if actions != [] {
      var before, a := actions[..|actions| - 1], actions[|actions| - 1];
      RunsEnd(s, before);
      assert a in actions;
      StepKeepsWired(Run(s, before).value, a);
      StepUsesEffort(Run(s, before).value, a);
    }
  }

  /** What a worker with anything left to do can do next. */
  lemma BusyCanStep(s: Cluster, tier: nat, i: nat) returns (a: Action)
    requires Wired(s) && Has(s, tier, i) && !Empty(s.tiers[tier][i])
    ensures !a.Emit? && Apply(s, a).Some?
  {
    var w := s.tiers[tier][i];
    assert WorkerWired(tier, w, Above(s, tier), Below(s, tier));
    if w.pending != [] {
      assert w.pending[0] in w.pending;
      var d := w.pending[0].dest;
      assert Has(s, tier + 1, d);
      assert WorkerWired(tier + 1, s.tiers[tier + 1][d], Above(s, tier + 1), Below(s, tier + 1));
      a := Send(tier, i);
    } else if w.outData != [] {
      assert Has(s, tier + 1, 0);
      a := At(tier, i, Drain(1, 0));
    } else if w.local != [] {
      a := At(tier, i, Process);
    } else if w.inData != [] {
      a := At(tier, i, Take);
    } else if w.arriving != [] {
      a := At(tier, i, Push);
    } else {
      var j :| 0 <= j < |w.inbox| && w.inbox[j] != [];
      a := At(tier, i, Receive(j));
    }
  }

  /** No deadlock: if no step but reading input is possible, the cluster is quiescent. */
  lemma StuckIsQuiescent(s: Cluster)
    requires Wired(s) && forall a :: Apply(s, a).Some? ==> a.Emit?
    ensures Quiescent(s)
  {
    forall tier: nat, i: nat | Has(s, tier, i) ensures Empty(s.tiers[tier][i]) {
      if !Empty(s.tiers[tier][i]) {
        var a := BusyCanStep(s, tier, i);
        assert false;
      }
    }
  }

  lemma FreshIsWired(spouts: nat, splitters: nat, counters: nat, printers: nat)
    requires splitters > 0 && counters > 0 && printers > 0
    ensures Wired(Fresh(spouts, splitters, counters, printers))
  {
    var s := Fresh(spouts, splitters, counters, printers);
    FreshIsPlaced("", spouts, splitters, counters, printers);
    forall tier: nat, i: nat | Has(s, tier, i)
      ensures WorkerWired(tier, s.tiers[tier][i], Above(s, tier), Below(s, tier))
    {
      assert s.tiers[tier][i] == Idle(Above(s, tier));
    }
  }

  lemma {:induction false} RunsStayWired(s: Cluster, actions: seq<Action>)
    requires Wired(s) && Run(s, actions).Some?
    ensures Wired(Run(s, actions).value)
    decreases |actions|
  {
    if actions != [] {
      var before := actions[..|actions| - 1];
      RunsStayWired(s, before);
      StepKeepsWired(Run(s, before).value, actions[|actions| - 1]);
    }
  }

  lemma {:induction false} RunsCompose(s: Cluster, first: seq<Action>, second: seq<Action>)
    requires Run(s, first).Some?
    ensures Run(s, first + second) == Run(Run(s, first).value, second)
    decreases |second|
  {
    if second == [] {
      assert first + second == first;
    } else {
      var before := second[..|second| - 1];
      RunsCompose(s, first, before);
      assert (first + second)[..|first + second| - 1] == first + before;
    }
  }

  /** Main result of the dataflow.  From any reachable state s let the input stop and let the
      threads run in any order until nothing can move: that happens after a bounded number of
      steps, and then the counter responsible for x holds what the sequential program computes
      for x on exactly the lines read, and x's running counts were printed once each, in order. */
  lemma EveryRunEndsSequential(x: string, s: Cluster, spouts: nat, splitters: nat, counters: nat, printers: nat,
      actions: seq<Action>, t: Cluster)
    requires splitters > 0 && counters > 0 && printers > 0
    requires Reachable(s, spouts, splitters, counters, printers)
    requires NoInput(actions) && Run(s, actions) == Some(t)
    ensures |s.tiers| == 4 && |actions| <= Total(Effort(0), s)
    ensures (forall a :: Apply(t, a).Some? ==> a.Emit?) ==>
      && |t.tiers| == 4 && |t.tiers[COUNTERS]| > 0 && |t.tiers[PRINTERS]| > 0
      && CountOf(t.tiers[COUNTERS][Home(x, |t.tiers[COUNTERS]|)].counts, x) == SequentialCount(x, s.emitted)
      && Of(x, t.tiers[PRINTERS][Home(x, |t.tiers[PRINTERS]|)].printed) == Results(x, SequentialCount(x, s.emitted))
  {
    var first := ReachedBy(s, spouts, splitters, counters, printers);
    RunsEnd(s, actions);
    if forall a :: Apply(t, a).Some? ==> a.Emit? {
      StuckIsQuiescent(t);
      RunsCompose(Fresh(spouts, splitters, counters, printers), first, actions);
      assert Run(Fresh(spouts, splitters, counters, printers), first + actions) == Some(t);
      QuiescentIsSequential(x, t, spouts, splitters, counters, printers);
    }
  }

  lemma ReachedBy(s: Cluster, spouts: nat, splitters: nat, counters: nat, printers: nat)
    returns (first: seq<Action>)
    requires splitters > 0 && counters > 0 && printers > 0
    requires Reachable(s, spouts, splitters, counters, printers)
    ensures Run(Fresh(spouts, splitters, counters, printers), first) == Some(s) && Wired(s)
  {
    first :| Run(Fresh(spouts, splitters, counters, printers), first) == Some(s);
    FreshIsWired(spouts, splitters, counters, printers);
    RunsStayWired(Fresh(spouts, splitters, counters, printers), first);
  }
}
