/** The word-count topology as a transition system: any number of spouts, splitters, counters
    and printers, each a worker with a receive, a process and a send thread, joined by reliable
    FIFO connections.  An action is one atomic step of one thread; a run is any sequence of
    enabled actions, so every interleaving is covered. */
module Pipeline {
  import opened Routing
  import opened Text
  import opened Options
  import opened Collections

  /** One worker process.  Batches travel inbox -> arriving -> inData -> local -> the bolt ->
      outData -> pending -> the inbox of the next tier. */
  datatype Worker = Worker(
    inbox: seq<seq<Batch>>,   // one connection per upstream worker, oldest message first
    arriving: Batch,          // rest of the message the receive thread is pushing
    inData: Batch,
    local: Batch,             // the process thread's localStream
    outData: Batch,
    pending: seq<Envelope>,   // messages the send thread has built and not sent yet
    counts: map<string, nat>, // used by counters
    printed: Batch)           // used by printers

  const SPOUTS := 0
  const SPLITTERS := 1
  const COUNTERS := 2
  const PRINTERS := 3

  /** tiers[SPOUTS] etc.; `emitted` is the history of lines the spouts have read. */
  datatype Cluster = Cluster(tiers: seq<seq<Worker>>, emitted: seq<string>)

  /** A step that changes one worker only. */
  datatype Local =
    | Drain(k: nat, choice: nat)   // the send thread takes k queued tuples and builds messages
    | Receive(from: nat)           // the receive thread takes the next message of a connection
    | Push                         // ... and pushes one tuple of it
    | Take                         // the process thread empties inData into its local queue
    | Process                      // ... and runs the bolt on one tuple

  datatype Action =
    | Emit(i: nat, id: int, line: string)
    | Send(tier: nat, i: nat)
    | At(tier: nat, i: nat, step: Local)

  // ---- bolts ----

  function SplitOutputs(id: int, ws: seq<string>): Batch
    decreases |ws|
  {
    if ws == [] then [] else [RawTuple(id + 1, [ws[0]])] + SplitOutputs(id + 1, ws[1..])
  }

  /** The words in order, with ids that count on from the id of the sentence. */
  lemma {:induction false} SplitOutputsAre(id: int, ws: seq<string>)
    ensures |SplitOutputs(id, ws)| == |ws|
    ensures forall k :: 0 <= k < |ws| ==> SplitOutputs(id, ws)[k] == RawTuple(id + k + 1, [ws[k]])
    decreases |ws|
  {
    if ws != [] {
      SplitOutputsAre(id + 1, ws[1..]);
    }
  }

  function CountOf(counts: map<string, nat>, x: string): nat {
    if x in counts then counts[x] else 0
  }

  function CountOutput(t: Tuple, n: nat): Tuple {
    RawTuple(t.id + 1, [Key(t), Decimal(n)])
  }

  /** runOnTuple of the bolt of a tier, on the worker that hosts it. */
  function RunOnTuple(tier: nat, w: Worker, t: Tuple): Worker {
    if tier == SPLITTERS then
      w.(outData := w.outData + SplitOutputs(t.id, Words(Key(t))))
    else if tier == COUNTERS then
      var n := CountOf(w.counts, Key(t)) + 1;
      w.(counts := w.counts[Key(t) := n], outData := w.outData + [CountOutput(t, n)])
    else
      w.(printed := w.printed + [t])
  }

  // ---- steps ----

  predicate Has(s: Cluster, tier: nat, i: nat) {
    tier < |s.tiers| && i < |s.tiers[tier]|
  }

  function Update(s: Cluster, tier: nat, i: nat, w: Worker): (r: Cluster)
    requires Has(s, tier, i)
    ensures Has(r, tier, i)
  {
    s.(tiers := s.tiers[tier := s.tiers[tier][i := w]])
  }

  /** Messages for a drained batch: shuffle grouping sends the whole batch on one randomly
      chosen connection, field grouping splits it by the hash of the first field. */
  function Route(tier: nat, b: Batch, n: nat, choice: nat): seq<Envelope>
    requires n > 0
  {
    if tier == SPOUTS then [Envelope(choice % n, b)] else FieldRoute(b, n)
  }

  /** Shuffle grouping sends the batch as it is, on one connection, and none is out of reach. */
  lemma ShuffleReaches(b: Batch, n: nat, choice: nat)
    requires n > 0
    ensures var sent := Route(SPOUTS, b, n, choice);
      |sent| == 1 && sent[0].batch == b && sent[0].dest < n && (choice < n ==> sent[0].dest == choice)
  {
    if choice < n {
      assert choice == n * 0 + choice;
    }
  }

  function Deliver(w: Worker, from: nat, b: Batch): Worker
    requires from < |w.inbox|
  {
    w.(inbox := w.inbox[from := w.inbox[from] + [b]])
  }

  /** `next` is the number of instances of the tier below. */
  function StepWorker(tier: nat, w: Worker, next: nat, step: Local): Option<Worker> {
    match step
    case Drain(k, choice) =>
      if next == 0 || w.pending != [] || k == 0 || k > |w.outData| then None else
      Some(w.(outData := w.outData[k..], pending := Route(tier, w.outData[..k], next, choice)))
    case Receive(from) =>
      if w.arriving != [] || from >= |w.inbox| || w.inbox[from] == [] then None else
      Some(w.(arriving := w.inbox[from][0], inbox := w.inbox[from := w.inbox[from][1..]]))
    case Push =>
      if w.arriving == [] then None else
      Some(w.(arriving := w.arriving[1..], inData := w.inData + [w.arriving[0]]))
    case Take =>
      if w.local != [] || w.inData == [] then None else
      Some(w.(local := w.inData, inData := []))
    case Process =>
      if w.local == [] then None else
      Some(RunOnTuple(tier, w.(local := w.local[1..]), w.local[0]))
  }

  function Below(s: Cluster, tier: nat): nat {
    if tier + 1 < |s.tiers| then |s.tiers[tier + 1]| else 0
  }

  function Apply(s: Cluster, a: Action): Option<Cluster> {
    match a
    case Emit(i, id, line) =>
      if !Has(s, SPOUTS, i) then None else
      var w := s.tiers[SPOUTS][i];
      Some(Update(s, SPOUTS, i, w.(outData := w.outData + [RawTuple(id, [line])])).(emitted := s.emitted + [line]))
    case Send(tier, i) =>
      if !Has(s, tier, i) then None else
      var w := s.tiers[tier][i];
      if w.pending == [] || !Has(s, tier + 1, w.pending[0].dest) then None else
      var e := w.pending[0];
      var v := s.tiers[tier + 1][e.dest];
      if i >= |v.inbox| then None else
      Some(Update(Update(s, tier, i, w.(pending := w.pending[1..])), tier + 1, e.dest, Deliver(v, i, e.batch)))
    case At(tier, i, step) =>
      if !Has(s, tier, i) then None else
      match StepWorker(tier, s.tiers[tier][i], Below(s, tier), step)
      case None => None
      case Some(w) => Some(Update(s, tier, i, w))
  }

  function Idle(senders: nat): Worker {
    Worker(seq(senders, j => []), [], [], [], [], [], map[], [])
  }

  /** A freshly configured topology: every tier has at least one instance. */
  function Fresh(spouts: nat, splitters: nat, counters: nat, printers: nat): Cluster {
    Cluster([seq(spouts, j => Idle(0)), seq(splitters, j => Idle(spouts)),
             seq(counters, j => Idle(splitters)), seq(printers, j => Idle(counters))], [])
  }

  function Run(s: Cluster, actions: seq<Action>): Option<Cluster> {
    if actions == [] then Some(s)
    else match Run(s, actions[..|actions| - 1])
      case None => None
      case Some(t) => Apply(t, actions[|actions| - 1])
  }

  /** Nothing left to do anywhere: no tuple is queued, batched or on a connection. */
  ghost predicate Quiescent(s: Cluster) {
    forall tier: nat, i: nat :: Has(s, tier, i) ==> Empty(s.tiers[tier][i])
  }

  predicate Empty(w: Worker) {
    w.arriving == w.inData == w.local == w.outData == [] && w.pending == [] &&
    forall j :: 0 <= j < |w.inbox| ==> w.inbox[j] == []
  }

  // ---- the sequential program the cluster is compared with ----

  function Occurrences(x: string, ws: seq<string>): nat {
    if ws == [] then 0 else (if ws[0] == x then 1 else 0) + Occurrences(x, ws[1..])
  }

  function SequentialCount(x: string, lines: seq<string>): nat {
    if lines == [] then 0
    else SequentialCount(x, lines[..|lines| - 1]) + Occurrences(x, Words(lines[|lines| - 1]))
  }

  lemma {:induction false} OccurrencesCounted(x: string, ws: seq<string>)
    ensures Occurrences(x, ws) == multiset(ws)[x]
  {
    if ws != [] {
      OccurrencesCounted(x, ws[1..]);
      assert ws == [ws[0]] + ws[1..];
    }
  }

  /** All words of a text, line by line. */
  function AllWords(lines: seq<string>): seq<string> {
    if lines == [] then [] else AllWords(lines[..|lines| - 1]) + Words(lines[|lines| - 1])
  }

  /** The sequential program counts how often the word occurs in the whole text. */
  lemma {:induction false} SequentialCountIs(x: string, lines: seq<string>)
    ensures SequentialCount(x, lines) == multiset(AllWords(lines))[x]
  {
    if lines != [] {
      SequentialCountIs(x, lines[..|lines| - 1]);
      OccurrencesCounted(x, Words(lines[|lines| - 1]));
    }
  }

  lemma AllWordsOfLine(line: string)
    ensures AllWords([line]) == Words(line)
  {
    assert [line][..0] == [];
  }

  lemma {:induction false} AllWordsConcat(a: seq<string>, b: seq<string>)
    ensures AllWords(a + b) == AllWords(a) + AllWords(b)
  {
    if b == [] {
      assert a + b == a;
    } else {
      var s := a + b;
      assert s[..|s| - 1] == a + b[..|b| - 1] && s[|s| - 1] == b[|b| - 1];
      AllWordsConcat(a, b[..|b| - 1]);
      Associative(AllWords(a), AllWords(b[..|b| - 1]), Words(b[|b| - 1]));
    }
  }
}
