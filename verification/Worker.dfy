/** The worker process as it is written: queues changed in place by loops.  Every method is
    proved to perform exactly the step of the transition system that it implements. */
module WorkerProcess {
  import opened Collections
  import opened Routing
  import opened Text
  import opened Options
  import opened Pipeline

  class ChildWorker {
    const tier: nat
    var inbox: seq<seq<Batch>>
    var arriving: Batch
    var inData: Batch
    var local: Batch
    var outData: Batch
    var pending: seq<Envelope>
    var counts: map<string, nat>
    var printed: Batch

    ghost function View(): Worker
      reads this
    {
      Worker(inbox, arriving, inData, local, outData, pending, counts, printed)
    }

    constructor (tier: nat, senders: nat)
      ensures View() == Idle(senders) && this.tier == tier
    {
      this.tier := tier;
      inbox := seq(senders, j => []);
      arriving, inData, local, outData := [], [], [], [];
      pending, counts, printed := [], map[], [];
    }

    /** Empties the output queue, one pop at a time. */
    method ReadAllTuples() returns (out: Batch)
      modifies this`outData
      ensures out == old(outData) && outData == []
    {
      out := [];
      while outData != []
        invariant out + outData == old(outData)
        decreases |outData|
      {
        out, outData := out + [outData[0]], outData[1..];
      }
    }

    /** Field grouping: one message per connection is filled tuple by tuple, then the messages
        that exist are sent in connection order. */
    method FieldMessages(batch: Batch, connections: nat) returns (sent: seq<Envelope>)
      requires connections > 0
      ensures sent == FieldRoute(batch, connections)
    {
      var messages: map<nat, Batch> := map[];
      for k := 0 to |batch|
        invariant Sorted(messages, batch[..k], connections)
      {
        var dest := (HashField(batch[k].data[0]) % SIZE_T_RANGE) % connections;
        var filled := if dest in messages then messages[dest] else [];
        SortedStep(messages, batch, connections, k);
        messages := messages[dest := filled + [batch[k]]];
      }
      assert batch[..|batch|] == batch;
      sent := [];
      for d := 0 to connections
        invariant sent + RouteFrom(batch, connections, d) == FieldRoute(batch, connections)
      {
        ghost var rest := RouteFrom(batch, connections, d + 1);
        if d in messages {
          assert sent + ([Envelope(d, messages[d])] + rest) == (sent + [Envelope(d, messages[d])]) + rest;
          sent := sent + [Envelope(d, messages[d])];
        } else {
          assert RouteFrom(batch, connections, d) == rest;
        }
      }
      assert sent + [] == sent;
    }

    /** The send thread's round: drain the output queue, route the batch. */
    method DataSend(connections: nat, choice: nat)
      requires outData != [] && pending == [] && connections > 0
      modifies this`outData, this`pending
      ensures StepWorker(tier, old(View()), connections, Drain(old(|outData|), choice)) == Some(View())
    {
      var localStream := ReadAllTuples();
      assert localStream == old(outData)[..|old(outData)|] && outData == old(outData)[|old(outData)|..];
      if tier == SPOUTS {
        pending := [Envelope(choice % connections, localStream)];
      } else {
        pending := FieldMessages(localStream, connections);
      }
    }

    /** The receive thread takes the next message of a connection ... */
    method ReceiveMessage(from: nat)
      requires arriving == [] && from < |inbox| && inbox[from] != []
      modifies this`arriving, this`inbox
      ensures StepWorker(tier, old(View()), 0, Receive(from)) == Some(View())
    {
      arriving, inbox := inbox[from][0], inbox[from := inbox[from][1..]];
    }

    method PushTuple()
      requires arriving != []
      modifies this`arriving, this`inData
      ensures StepWorker(tier, old(View()), 0, Push) == Some(View())
    {
      arriving, inData := arriving[1..], inData + [arriving[0]];
    }

    /** ... and pushes all of its tuples, in order. */
    method PushTuples()
      modifies this`arriving, this`inData
      ensures arriving == [] && inData == old(inData) + old(arriving)
    {
      while arriving != []
        invariant inData + arriving == old(inData) + old(arriving)
        invariant |arriving| <= |old(arriving)|
        decreases |arriving|
      {
        PushTuple();
      }
    }

    /** The process thread empties the input queue into its local queue. */
    method TakeAll()
      requires local == [] && inData != []
      modifies this`local, this`inData
      ensures StepWorker(tier, old(View()), 0, Take) == Some(View())
    {
      while inData != []
        invariant local + inData == old(inData)
        decreases |inData|
      {
        local, inData := local + [inData[0]], inData[1..];
      }
      assert local == old(inData);
    }

    method SplitSentence(t: Tuple)
      modifies this`outData
      ensures outData == old(outData) + SplitOutputs(t.id, Words(Key(t)))
    {
      var tokens := Words(t.data[0]);
      var currentId := t.id;
      for k := 0 to |tokens|
        invariant currentId == t.id + k
        invariant outData + SplitOutputs(currentId, tokens[k..]) == old(outData) + SplitOutputs(t.id, tokens)
      {
        currentId := currentId + 1;
        assert tokens[k..][1..] == tokens[k + 1..];
        outData := outData + [RawTuple(currentId, [tokens[k]])];
      }
    }

    method CountWord(t: Tuple)
      modifies this`outData, this`counts
      ensures var n := CountOf(old(counts), Key(t)) + 1;
        && counts == old(counts)[t.data[0] := n]
        && outData == old(outData) + [RawTuple(t.id + 1, [t.data[0], Decimal(n)])]
    {
      var count := if t.data[0] in counts then counts[t.data[0]] else 0;
      count := count + 1;
      counts := counts[t.data[0] := count];
      outData := outData + [RawTuple(t.id + 1, [t.data[0], Decimal(count)])];
    }

    /** One turn of the process loop: run the bolt on the oldest local tuple. */
    method ProcessNext()
      requires local != []
      modifies this`local, this`outData, this`counts, this`printed
      ensures StepWorker(tier, old(View()), 0, Process) == Some(View())
    {
      var t := local[0];
      local := local[1..];
      if tier == SPLITTERS {
        SplitSentence(t);
      } else if tier == COUNTERS {
        CountWord(t);
      } else {
        printed := printed + [t];
      }
    }
  }

  /** The messages built so far hold exactly the parts of the batch, and only those not empty. */
  ghost predicate Sorted(messages: map<nat, Batch>, b: Batch, n: nat)
    requires n > 0
  {
    (forall d: nat :: d in messages <==> d < n && Part(b, n, d) != []) &&
    (forall d: nat :: d in messages ==> messages[d] == Part(b, n, d))
  }

  lemma SortedStep(messages: map<nat, Batch>, b: Batch, n: nat, k: nat)
    requires n > 0 && k < |b| && Sorted(messages, b[..k], n)
    ensures var d := Home(Key(b[k]), n);
      Sorted(messages[d := (if d in messages then messages[d] else []) + [b[k]]], b[..k + 1], n)
  {
    PartAppend(b, n, k);
  }

  lemma {:induction false} PartConcat(a: Batch, b: Batch, n: nat, d: nat)
    requires n > 0
    ensures Part(a + b, n, d) == Part(a, n, d) + Part(b, n, d)
  {
    if a == [] {
      assert a + b == b;
    } else {
      PartConcat(a[1..], b, n, d);
      assert (a + b)[0] == a[0] && (a + b)[1..] == a[1..] + b;
      Associative(if Home(Key(a[0]), n) == d then [a[0]] else [], Part(a[1..], n, d), Part(b, n, d));
    }
  }

  lemma PartAppend(b: Batch, n: nat, k: nat)
    requires n > 0 && k < |b|
    ensures forall d :: Part(b[..k + 1], n, d)
              == Part(b[..k], n, d) + if Home(Key(b[k]), n) == d then [b[k]] else []
  {
    forall d: nat
      ensures Part(b[..k + 1], n, d) == Part(b[..k], n, d) + if Home(Key(b[k]), n) == d then [b[k]] else []
    {
      assert b[..k + 1] == b[..k] + [b[k]];
      PartConcat(b[..k], [b[k]], n, d);
      assert [b[k]][1..] == [];
    }
  }
}
