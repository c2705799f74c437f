/** The commands that are sent when a member has failed: by the master, and by former masters, which
    do not know that they are no longer obeyed. */
module Commands {
  import opened Collections
  import opened Options

  /** Copy a file from a source to some targets. */
  datatype Cmd = Cmd(f: string, source: nat, targets: set<nat>)

  /** `queues` is what each of them still has to send, `silent` the members that no longer answer,
      `blocked` those that wait for an answer for ever, and `done` what has been carried out. */
  datatype Round = Round(leader: nat, queues: map<nat, seq<Cmd>>, silent: set<nat>, blocked: set<nat>, done: seq<Cmd>)

  function Involved(queue: seq<Cmd>): set<nat> {
    if queue == [] then {} else {queue[0].source} + queue[0].targets + Involved(queue[1..])
  }

  /** b sends its next command.  A source that does not obey b returns without a reply, and its
      service thread ends with its next receive.  A source that does obey offers the file to one
      target after the other, and waits for each. */
  function Send(r: Round, b: nat): Option<Round> {
    if b !in r.queues || r.queues[b] == [] || b in r.blocked then None else
    var c := r.queues[b][0];
    if c.source in r.silent then Some(r.(blocked := r.blocked + {b}))
    else if b != r.leader then Some(r.(silent := r.silent + {c.source}, blocked := r.blocked + {b}))
    else if !(c.targets !! r.silent) then
      Some(r.(silent := r.silent + {c.source}, blocked := r.blocked + {b}))
    else Some(r.(queues := r.queues[b := r.queues[b][1..]], done := r.done + [c]))
  }

  /** The senders in the order in which they send. */
  function Sends(r: Round, senders: seq<nat>): Option<Round>
    decreases |senders|
  {
    if senders == [] then Some(r)
    else match Send(r, senders[0])
      case None => None
      case Some(t) => Sends(t, senders[1..])
  }

  /** In whatever order everybody sends, the master never waits for ever, so that in the end it has
      had everything done. */
  ghost predicate CarriedOut(r: Round) {
    forall senders :: Sends(r, senders).Some? ==> r.leader !in Sends(r, senders).value.blocked
  }

  predicate Fresh(r: Round) { r.silent == {} && r.blocked == {} && r.done == [] && r.leader in r.queues }

  /** A former master's first command goes to a member that the master needs. */
  predicate Meets(r: Round, b: nat) {
    && b in r.queues && b != r.leader && r.queues[b] != []
    && r.leader in r.queues && r.queues[b][0].source in Involved(r.queues[r.leader])
  }

  // ---- it is harmless if they do not meet ----

  /** Nobody that the master still needs is silent, or can be made so. */
  ghost predicate Harmless(r: Round) {
    && r.leader in r.queues && r.leader !in r.blocked
    && r.silent !! Involved(r.queues[r.leader])
    && forall b :: !Meets(r, b)
  }

  lemma SendKeepsHarmless(r: Round, b: nat)
    requires Harmless(r) && Send(r, b).Some?
    ensures Harmless(Send(r, b).value)
  {
    var t, c := Send(r, b).value, r.queues[b][0];
    if b == r.leader {
      assert c.source in Involved(r.queues[b]);
      assert c.targets <= Involved(r.queues[b]);
      assert t.queues[b] == r.queues[b][1..];
      forall d ensures !Meets(t, d) {
        assert !Meets(r, d);
      }
    } else {
      assert !Meets(r, b);
      forall d ensures !Meets(t, d) {
        assert !Meets(r, d);
      }
    }
  }

  lemma {:induction false} SendsKeepHarmless(r: Round, senders: seq<nat>)
    requires Harmless(r) && Sends(r, senders).Some?
    ensures Harmless(Sends(r, senders).value) && Sends(r, senders).value.leader == r.leader
    decreases |senders|
  {
    if senders != [] {
      SendKeepsHarmless(r, senders[0]);
      SendsKeepHarmless(Send(r, senders[0]).value, senders[1..]);
    }
  }

  // ---- and harmful if they do ----

  /** Once a member that the master needs is silent, the master sends until it waits for ever. */
  lemma {:induction false} LeaderBlocks(r: Round) returns (senders: seq<nat>)
    requires r.leader in r.queues && r.leader !in r.blocked && !(r.silent !! Involved(r.queues[r.leader]))
    ensures Sends(r, senders).Some?
    ensures var t := Sends(r, senders).value;
      && t.leader == r.leader && r.leader in t.blocked && r.leader in t.queues && t.queues[r.leader] != []
    decreases |r.queues[r.leader]|
  {
    var queue := r.queues[r.leader];
    assert queue != [];
    var t := Send(r, r.leader).value;
    if r.leader in t.blocked {
      assert Sends(t, []) == Some(t);
      senders := [r.leader];
    } else {
      assert t.queues[r.leader] == queue[1..];
      var more := LeaderBlocks(t);
      senders := [r.leader] + more;
    }
  }

  /** Whoever waits for ever sends nothing more, and if it is the master, nothing more is done. */
  lemma {:induction false} BlockedForEver(r: Round, b: nat, senders: seq<nat>)
    requires b in r.queues && b in r.blocked && Sends(r, senders).Some?
    ensures var t := Sends(r, senders).value;
      && b in t.queues && b in t.blocked && t.queues[b] == r.queues[b]
      && t.leader == r.leader && (b == r.leader ==> t.done == r.done)
    decreases |senders|
  {
    if senders != [] {
      BlockedForEver(Send(r, senders[0]).value, b, senders[1..]);
    }
  }

  /** What has been done and what is left are together what the master wanted, in order. */
  lemma {:induction false} NothingIsSkipped(r: Round, senders: seq<nat>)
    requires r.leader in r.queues && Sends(r, senders).Some?
    ensures var t := Sends(r, senders).value;
      t.leader == r.leader && t.leader in t.queues && t.done + t.queues[t.leader] == r.done + r.queues[r.leader]
    decreases |senders|
  {
    if senders != [] {
      var t := Send(r, senders[0]).value;
      NothingIsSkipped(t, senders[1..]);
      OneSent(r, senders[0]);
    }
  }

  lemma OneSent(r: Round, b: nat)
    requires r.leader in r.queues && Send(r, b).Some?
    ensures var t := Send(r, b).value;
      t.leader == r.leader && t.leader in t.queues && t.done + t.queues[t.leader] == r.done + r.queues[r.leader]
  {
    var t := Send(r, b).value;
    if t.done != r.done {
      var queue := r.queues[b];
      assert queue == [queue[0]] + queue[1..];
      Associative(r.done, [queue[0]], queue[1..]);
    }
  }

  /** A command that is waited for in vain has cost its source: it answers nobody any more. */
  lemma VainCommandSilences(r: Round, b: nat)
    requires Send(r, b).Some? && b in Send(r, b).value.blocked
    ensures r.queues[b][0].source in Send(r, b).value.silent
    ensures Send(r, b).value.queues == r.queues && Send(r, b).value.done == r.done
  {
  }

  // ---- in the end ----

  /** Every sender but the master waits for ever after its first command, so all sending ends. */
  function Effort(r: Round): nat
    requires r.leader in r.queues
  {
    |r.queues[r.leader]| + |r.queues.Keys - r.blocked|
  }

  lemma SendUsesEffort(r: Round, b: nat)
    requires r.leader in r.queues && Send(r, b).Some?
    ensures Send(r, b).value.leader in Send(r, b).value.queues
    ensures Effort(Send(r, b).value) < Effort(r)
  {
    var t := Send(r, b).value;
    assert t.queues.Keys == r.queues.Keys;
    if b in t.blocked {
      assert t.queues.Keys - t.blocked == (r.queues.Keys - r.blocked) - {b};
    }
  }

  lemma {:induction false} SendingEnds(r: Round, senders: seq<nat>)
    requires r.leader in r.queues && Sends(r, senders).Some?
    ensures |senders| <= Effort(r)
    decreases |senders|
  {
    if senders != [] {
      SendUsesEffort(r, senders[0]);
      SendingEnds(Send(r, senders[0]).value, senders[1..]);
    }
  }

  /** The master has all its commands carried out, in whatever order everybody sends, if and only if
      no former master's first command goes to a member that the master's commands need. */
  lemma CarriedOutExactly(r: Round)
    requires Fresh(r)
    ensures CarriedOut(r) <==> forall b :: !Meets(r, b)
  {
    if b :| Meets(r, b) {
      var t := Send(r, b).value;
      var more := LeaderBlocks(t);
      assert Sends(r, [b] + more) == Sends(t, more);
    } else {
      forall senders | Sends(r, senders).Some?
        ensures r.leader !in Sends(r, senders).value.blocked
      {
        SendsKeepHarmless(r, senders);
      }
    }
  }

  /** So when the master cannot send any more, all its commands have been carried out. */
  lemma EverythingIsDone(r: Round, senders: seq<nat>)
    requires Fresh(r) && (forall b :: !Meets(r, b)) && Sends(r, senders).Some?
    requires Send(Sends(r, senders).value, r.leader).None?
    ensures Sends(r, senders).value.done == r.queues[r.leader]
  {
    var t := Sends(r, senders).value;
    SendsKeepHarmless(r, senders);
    NothingIsSkipped(r, senders);
    assert t.queues[t.leader] == [] && t.done + [] == t.done && [] + r.queues[r.leader] == r.queues[r.leader];
  }
}
