/** The chunked file transfer between a fetching client and a sending server, over a network that
    may lose, delay, repeat, reorder and damage replies. */
module Transfer {
  import opened Options
  import opened FileReading

  datatype Client = Client(count: nat, target: seq<Byte>)

  /** A reply to a fetch request.  The one sent after the end of the file carries no chunk id and
      no size, both of which are required fields, so it does not parse. */
  datatype Reply = Reply(id: int, data: seq<Byte>, size: int) | Bare(data: seq<Byte>)

  /** Aborted: the thread has thrown a value that nobody catches. */
  datatype Phase = Serving | LastPiece | Done | Aborted
  datatype Server = Server(phase: Phase, asked: int, chunkCount: int, reader: Reader)

  /** recvNextChunk. */
  function Receive(c: Client, r: Reply): Client {
    if r.Bare? || r.id != c.count || |r.data| != r.size then c
    else Client(c.count + 1, c.target + r.data)
  }

  /** One request handled by the server thread, and its answer. */
  function Answer(source: seq<Byte>, chunk: nat, s: Server, id: int): (Server, Option<Reply>)
    requires s.reader.pos <= |source|
  {
    var again := id >= 0 && id == s.chunkCount;
    match s.phase
    case Serving =>
      if again then
        (s.(asked := id), Some(Reply(s.chunkCount, s.reader.buffer, |s.reader.buffer|)))
      else if id == s.chunkCount + 1 then
        var r := Read(source, chunk, s.reader);
        (Server(if r.eof then LastPiece else Serving, id, id, r), Some(Reply(id, r.buffer, |r.buffer|)))
      else (s.(asked := id, phase := Aborted), None)
    case LastPiece =>
      if again then (s.(asked := id, phase := Done), Some(Bare(s.reader.buffer)))
      else (s.(asked := id, phase := Aborted), None)
    case Done => (s, None)
    case Aborted => (s, None)
  }

  /** Requests keep their order; replies are a set any member of which may arrive at any time. */
  datatype State = State(client: Client, server: Server, requests: seq<int>, replies: set<Reply>)

  datatype Action =
    | Ask              // the client requests the chunk it is waiting for
    | Serve            // the server handles the oldest request
    | Timeout          // the server has waited too long
    | Deliver(r: Reply)
    | Lose(r: Reply)

  predicate WellFormed(source: seq<Byte>, s: State) {
    s.server.reader.pos <= |source|
  }

  function Init(): State {
    State(Client(0, []), Server(Serving, -1, -1, OPENED), [], {})
  }

  /** Not as long as it says, which is what the client checks; other damage is not noticed. */
  predicate Damaged(r: Reply) { r.Reply? && |r.data| != r.size }

  function Apply(source: seq<Byte>, chunk: nat, s: State, a: Action): Option<State>
    requires chunk > 0 && WellFormed(source, s)
  {
    match a
    case Ask =>
      if s.client.count < TotalChunks(|source|, chunk)
      then Some(s.(requests := s.requests + [s.client.count])) else None
    case Serve =>
      if s.requests == [] then None else
      var (server, reply) := Answer(source, chunk, s.server, s.requests[0]);
      Some(State(s.client, server, s.requests[1..],
                 if reply.Some? then s.replies + {reply.value} else s.replies))
    case Timeout =>
      if s.server.phase.Serving? || s.server.phase.LastPiece?
      then Some(s.(server := s.server.(phase := Done))) else None
    case Deliver(r) =>
      if r in s.replies || Damaged(r) then Some(s.(client := Receive(s.client, r))) else None
    case Lose(r) => Some(s.(replies := s.replies - {r}))
  }

  // ---- lockstep ----

  ghost predicate Truthful(source: seq<Byte>, chunk: nat, chunkCount: int, r: Reply) {
    r.Reply? ==> 0 <= r.id <= chunkCount && r.data == Slice(source, chunk, r.id) && r.size == |r.data|
  }

  predicate Ordered(requests: seq<int>, low: int, high: int) {
    && (forall i :: 0 <= i < |requests| ==> low <= requests[i] <= high)
    && (forall i, j :: 0 <= i < j < |requests| ==> requests[i] <= requests[j])
  }

  ghost predicate ServerOk(source: seq<Byte>, chunk: nat, v: Server)
    requires chunk > 0
  {
    && -1 <= v.chunkCount < TotalChunks(|source|, chunk)
    && Positioned(source, chunk, v.chunkCount + 1, v.reader)
    && !v.phase.Aborted? && (v.phase.Serving? ==> !v.reader.eof) && (v.phase.LastPiece? ==> v.reader.eof)
  }

  /** The client waits for the server's current chunk or for the next one, and holds exactly the
      bytes in front of it. */
  ghost predicate Lockstep(source: seq<Byte>, chunk: nat, s: State)
    requires chunk > 0
  {
    && ServerOk(source, chunk, s.server)
    && s.server.chunkCount <= s.client.count <= s.server.chunkCount + 1
    && s.client.target == source[..Upto(source, chunk, s.client.count)]
    && Ordered(s.requests, s.server.chunkCount, s.client.count)
    && (forall i :: 0 <= i < |s.requests| ==> 0 <= s.requests[i] < TotalChunks(|source|, chunk))
    && forall r :: r in s.replies ==> Truthful(source, chunk, s.server.chunkCount, r)
  }

  /** A request the client can have made is for the chunk sent last or for the next one, so it is
      always answered, and by the slice asked for. */
  lemma RequestIsAnswered(source: seq<Byte>, chunk: nat, v: Server, id: int)
    requires chunk > 0 && ServerOk(source, chunk, v)
    requires 0 <= id < TotalChunks(|source|, chunk) && v.chunkCount <= id <= v.chunkCount + 1
    ensures var (w, reply) := Answer(source, chunk, v, id);
      && ServerOk(source, chunk, w)
      && (v.phase.Serving? ==> w.chunkCount == id && !w.phase.Done?
                               && reply == Some(Reply(id, Slice(source, chunk, id), |Slice(source, chunk, id)|)))
      && (v.phase.Done? ==> w == v && reply.None?)
      && (v.phase.LastPiece? ==> w.chunkCount == v.chunkCount && w.phase.Done?
                                 && reply == Some(Bare(Slice(source, chunk, id))))
      && (!v.phase.Done? ==> w.asked == id)
      && (w.phase.LastPiece? ==> w.chunkCount + 1 == TotalChunks(|source|, chunk))
  {
    TotalIsCeiling(|source|, chunk, v.chunkCount + 1);
    if v.phase.Serving? && id == v.chunkCount + 1 {
      NextChunkIsNextSlice(source, chunk, id, v.reader);
      TotalIsCeiling(|source|, chunk, id + 1);
    }
  }

  /** Any other request would make the server thread throw: the chunk asked for is neither the one sent
      last nor the next one, or nothing has been sent yet and it is negative. */
  lemma OtherRequestsAbort(source: seq<Byte>, chunk: nat, v: Server, id: int)
    requires v.reader.pos <= |source| && (v.phase.Serving? || v.phase.LastPiece?)
    ensures var again := id == v.chunkCount && id >= 0;
      Answer(source, chunk, v, id).0.phase.Aborted? <==>
        !again && (v.phase.Serving? ==> id != v.chunkCount + 1)
  {
  }

  lemma ServeKeepsLockstep(source: seq<Byte>, chunk: nat, s: State)
    requires chunk > 0 && Lockstep(source, chunk, s) && s.requests != []
    ensures Lockstep(source, chunk, Apply(source, chunk, s, Serve).value)
  {
    RequestIsAnswered(source, chunk, s.server, s.requests[0]);
  }

  lemma DeliverKeepsLockstep(source: seq<Byte>, chunk: nat, s: State, r: Reply)
    requires chunk > 0 && Lockstep(source, chunk, s) && (r in s.replies || Damaged(r))
    ensures Lockstep(source, chunk, Apply(source, chunk, s, Deliver(r)).value)
  {
    if r in s.replies && r.Reply? && r.id == s.client.count {
      assert Truthful(source, chunk, s.server.chunkCount, r);
      SliceExtends(source, chunk, r.id);
    }
  }

  lemma StepKeepsLockstep(source: seq<Byte>, chunk: nat, s: State, a: Action)
    requires chunk > 0 && Lockstep(source, chunk, s) && Apply(source, chunk, s, a).Some?
    ensures Lockstep(source, chunk, Apply(source, chunk, s, a).value)
  {
    match a
    case Ask =>
    case Serve => ServeKeepsLockstep(source, chunk, s);
    case Timeout =>
    case Deliver(r) => DeliverKeepsLockstep(source, chunk, s, r);
    case Lose(r) =>
  }

  ghost function Run(source: seq<Byte>, chunk: nat, s: State, actions: seq<Action>): Option<State>
    requires chunk > 0
    decreases |actions|
  {
    if actions == [] then Some(s)
    else match Run(source, chunk, s, actions[..|actions| - 1])
      case None => None
      case Some(t) => if WellFormed(source, t) then Apply(source, chunk, t, actions[|actions| - 1]) else None
  }

  lemma {:induction false} RunsStayInLockstep(source: seq<Byte>, chunk: nat, s: State, actions: seq<Action>)
    requires chunk > 0 && Lockstep(source, chunk, s) && Run(source, chunk, s, actions).Some?
    ensures Lockstep(source, chunk, Run(source, chunk, s, actions).value)
    decreases |actions|
  {
    if actions != [] {
      RunsStayInLockstep(source, chunk, s, actions[..|actions| - 1]);
      StepKeepsLockstep(source, chunk, Run(source, chunk, s, actions[..|actions| - 1]).value, actions[|actions| - 1]);
    }
  }

  /** Transfer safety, over all runs: the client holds a prefix of the file, all of it once it has
      counted to the end; the counts are in lockstep; no request is ever out of range, so the server
      thread never throws; and it never reads on after the end of the file. */
  lemma ClientHoldsAPrefix(source: seq<Byte>, chunk: nat, actions: seq<Action>)
    requires chunk > 0 && Run(source, chunk, Init(), actions).Some?
    ensures var t := Run(source, chunk, Init(), actions).value;
      && t.client.target == source[..Min(t.client.count * chunk, |source|)]
      && t.client.count <= TotalChunks(|source|, chunk)
      && (t.client.count == TotalChunks(|source|, chunk) ==> t.client.target == source)
      && t.server.chunkCount <= t.client.count <= t.server.chunkCount + 1
      && !t.server.phase.Aborted? && (t.server.phase.Serving? ==> !t.server.reader.eof)
  {
    TotalIsCeiling(|source|, chunk, 0);
    assert Lockstep(source, chunk, Init());
    var t := Run(source, chunk, Init(), actions).value;
    RunsStayInLockstep(source, chunk, Init(), actions);
    TotalIsCeiling(|source|, chunk, t.client.count);
  }

  // ---- completion ----

  ghost predicate Finished(source: seq<Byte>, chunk: nat, s: State)
    requires chunk > 0
  {
    s.client.count == TotalChunks(|source|, chunk) && s.client.target == source
  }

  ghost predicate CanFinish(source: seq<Byte>, chunk: nat, s: State)
    requires chunk > 0
  {
    exists actions :: Run(source, chunk, s, actions).Some? &&
        Finished(source, chunk, Run(source, chunk, s, actions).value)
  }

  ghost predicate Awaited(s: State) {
    exists r :: r in s.replies && r.Reply? && r.id == s.client.count
  }

  /** The client is done, the server is still in its main loop, or what is missing is the last
      chunk and a reply that carries it is still under way. */
  ghost predicate Hopeful(source: seq<Byte>, chunk: nat, s: State)
    requires chunk > 0
  {
    var total := TotalChunks(|source|, chunk);
    s.client.count == total || s.server.phase.Serving? || (s.client.count + 1 == total && Awaited(s))
  }

  lemma {:induction false} RunFrom(source: seq<Byte>, chunk: nat, s: State, a: Action, actions: seq<Action>)
    requires chunk > 0 && WellFormed(source, s) && Apply(source, chunk, s, a).Some?
    ensures Run(source, chunk, s, [a] + actions) == Run(source, chunk, Apply(source, chunk, s, a).value, actions)
    decreases |actions|
  {
    var all := [a] + actions;
    if actions == [] {
      assert all[..|all| - 1] == [];
      assert Run(source, chunk, s, []) == Some(s);
    } else {
      RunFrom(source, chunk, s, a, actions[..|actions| - 1]);
      assert all[..|all| - 1] == [a] + actions[..|actions| - 1];
    }
  }

  lemma StepTowardsFinish(source: seq<Byte>, chunk: nat, s: State, a: Action)
    requires chunk > 0 && WellFormed(source, s) && Apply(source, chunk, s, a).Some?
    requires CanFinish(source, chunk, Apply(source, chunk, s, a).value)
    ensures CanFinish(source, chunk, s)
  {
    var t := Apply(source, chunk, s, a).value;
    var actions :| Run(source, chunk, t, actions).Some? &&
        Finished(source, chunk, Run(source, chunk, t, actions).value);
    RunFrom(source, chunk, s, a, actions);
    assert Finished(source, chunk, Run(source, chunk, s, [a] + actions).value);
  }

  lemma CompleteIsFinished(source: seq<Byte>, chunk: nat, s: State)
    requires chunk > 0 && Lockstep(source, chunk, s) && s.client.count == TotalChunks(|source|, chunk)
    ensures CanFinish(source, chunk, s)
  {
    TotalIsCeiling(|source|, chunk, s.client.count);
    assert Run(source, chunk, s, []) == Some(s);
    assert Finished(source, chunk, Run(source, chunk, s, []).value);
  }

  /** An awaited reply moves the client on by one chunk. */
  lemma AwaitedArrives(source: seq<Byte>, chunk: nat, s: State) returns (a: Action)
    requires chunk > 0 && Lockstep(source, chunk, s) && Awaited(s)
    ensures Apply(source, chunk, s, a).Some? && Lockstep(source, chunk, Apply(source, chunk, s, a).value)
    ensures Apply(source, chunk, s, a).value.client.count == s.client.count + 1
    ensures Apply(source, chunk, s, a).value.(client := s.client) == s
  {
    var r :| r in s.replies && r.Reply? && r.id == s.client.count;
    a := Deliver(r);
    assert Truthful(source, chunk, s.server.chunkCount, r);
    DeliverKeepsLockstep(source, chunk, s, r);
  }

  /** The server answers the oldest request and there is still hope. */
  lemma ServeKeepsHope(source: seq<Byte>, chunk: nat, s: State)
    requires chunk > 0 && Lockstep(source, chunk, s) && s.server.phase.Serving? && s.requests != []
    ensures var t := Apply(source, chunk, s, Serve).value;
      && Lockstep(source, chunk, t) && Hopeful(source, chunk, t)
      && t.client == s.client && t.requests == s.requests[1..]
      && (s.requests[0] == s.client.count ==> Awaited(t))
  {
    var t := Apply(source, chunk, s, Serve).value;
    ServeKeepsLockstep(source, chunk, s);
    RequestIsAnswered(source, chunk, s.server, s.requests[0]);
    var reply := Reply(s.requests[0], Slice(source, chunk, s.requests[0]), |Slice(source, chunk, s.requests[0])|);
    assert reply in t.replies;
  }

  /** From a hopeful state the transfer can be completed: drain the requests, ask, answer, deliver. */
  lemma {:induction false} HopefulCanFinish(source: seq<Byte>, chunk: nat, s: State)
    requires chunk > 0 && Lockstep(source, chunk, s) && Hopeful(source, chunk, s)
    ensures CanFinish(source, chunk, s)
    decreases TotalChunks(|source|, chunk) - s.client.count, if Awaited(s) then 0 else 1, |s.requests|
  {
    var total := TotalChunks(|source|, chunk);
    if s.client.count == total {
      CompleteIsFinished(source, chunk, s);
    } else if Awaited(s) {
      var a := AwaitedArrives(source, chunk, s);
      HopefulCanFinish(source, chunk, Apply(source, chunk, s, a).value);
      StepTowardsFinish(source, chunk, s, a);
    } else if s.requests == [] {
      StepKeepsLockstep(source, chunk, s, Ask);
      var t := Apply(source, chunk, s, Ask).value;
      ServeKeepsHope(source, chunk, t);
      HopefulCanFinish(source, chunk, Apply(source, chunk, t, Serve).value);
      StepTowardsFinish(source, chunk, t, Serve);
      StepTowardsFinish(source, chunk, s, Ask);
    } else {
      ServeKeepsHope(source, chunk, s);
      HopefulCanFinish(source, chunk, Apply(source, chunk, s, Serve).value);
      StepTowardsFinish(source, chunk, s, Serve);
    }
  }

  /** Hope once lost never returns. */
  lemma HopelessStays(source: seq<Byte>, chunk: nat, s: State, a: Action)
    requires chunk > 0 && Lockstep(source, chunk, s) && Apply(source, chunk, s, a).Some?
    requires !Hopeful(source, chunk, s)
    ensures !Hopeful(source, chunk, Apply(source, chunk, s, a).value)
  {
    var t := Apply(source, chunk, s, a).value;
    if a.Serve? {
      RequestIsAnswered(source, chunk, s.server, s.requests[0]);
    }
    forall r | r in t.replies && r.Reply? ensures r in s.replies && r.id <= s.server.chunkCount {
      assert Truthful(source, chunk, s.server.chunkCount, r);
    }
    if Awaited(t) && t.client == s.client {
      var r :| r in t.replies && r.Reply? && r.id == t.client.count;
      assert r in s.replies;
    }
  }

  lemma {:induction false} HopelessForEver(source: seq<Byte>, chunk: nat, s: State, actions: seq<Action>)
    requires chunk > 0 && Lockstep(source, chunk, s) && !Hopeful(source, chunk, s)
    requires Run(source, chunk, s, actions).Some?
    ensures !Hopeful(source, chunk, Run(source, chunk, s, actions).value)
    decreases |actions|
  {
    if actions != [] {
      HopelessForEver(source, chunk, s, actions[..|actions| - 1]);
      RunsStayInLockstep(source, chunk, s, actions[..|actions| - 1]);
      HopelessStays(source, chunk, Run(source, chunk, s, actions[..|actions| - 1]).value, actions[|actions| - 1]);
    }
  }

  /** Completion, exactly: a transfer can still end with the whole file if and only if it has, or
      the server is still in its main loop, or the reply with the last chunk has not been lost.
      In particular a last chunk that is not full and whose reply is lost can never be had again,
      although the server stays for one more request. */
  lemma CompletionExactly(source: seq<Byte>, chunk: nat, actions: seq<Action>)
    requires chunk > 0 && Run(source, chunk, Init(), actions).Some?
    ensures var s := Run(source, chunk, Init(), actions).value;
      CanFinish(source, chunk, s) <==> Hopeful(source, chunk, s)
  {
    TotalIsCeiling(|source|, chunk, 0);
    RunsStayInLockstep(source, chunk, Init(), actions);
    var s := Run(source, chunk, Init(), actions).value;
    if Hopeful(source, chunk, s) {
      HopefulCanFinish(source, chunk, s);
    } else {
      forall more | Run(source, chunk, s, more).Some?
        ensures !Finished(source, chunk, Run(source, chunk, s, more).value)
      {
        HopelessForEver(source, chunk, s, more);
      }
    }
  }

  /** A server that runs out of patience is final, unless the client has got everything or is about to. */
  lemma TimeoutCanBeFatal(source: seq<Byte>, chunk: nat, actions: seq<Action>)
    requires chunk > 0 && Run(source, chunk, Init(), actions).Some?
    requires var s := Run(source, chunk, Init(), actions).value;
      && s.client.count < TotalChunks(|source|, chunk) && !Awaited(s)
      && (s.server.phase.Serving? || s.server.phase.LastPiece?)
    ensures Run(source, chunk, Init(), actions + [Timeout]).Some?
    ensures !CanFinish(source, chunk, Run(source, chunk, Init(), actions + [Timeout]).value)
  {
    TotalIsCeiling(|source|, chunk, 0);
    RunsStayInLockstep(source, chunk, Init(), actions);
    var all := actions + [Timeout];
    assert all[..|all| - 1] == actions;
    CompletionExactly(source, chunk, all);
  }

  /** When the file is a whole number of chunks the server never leaves its main loop by itself,
      so as long as it does not time out the transfer can be completed whatever gets lost. */
  lemma WholeChunksNeverStuck(source: seq<Byte>, chunk: nat, actions: seq<Action>)
    requires chunk > 0 && |source| % chunk == 0 && Timeout !in actions
    requires Run(source, chunk, Init(), actions).Some?
    ensures Run(source, chunk, Init(), actions).value.server.phase.Serving?
    ensures CanFinish(source, chunk, Run(source, chunk, Init(), actions).value)
  {
    StillServing(source, chunk, actions);
    CompletionExactly(source, chunk, actions);
  }

  lemma {:induction false} StillServing(source: seq<Byte>, chunk: nat, actions: seq<Action>)
    requires chunk > 0 && |source| % chunk == 0 && Timeout !in actions
    requires Run(source, chunk, Init(), actions).Some?
    ensures Run(source, chunk, Init(), actions).value.server.phase.Serving?
    decreases |actions|
  {
    if actions != [] {
      StillServing(source, chunk, actions[..|actions| - 1]);
      TotalIsCeiling(|source|, chunk, 0);
      RunsStayInLockstep(source, chunk, Init(), actions[..|actions| - 1]);
      var s := Run(source, chunk, Init(), actions[..|actions| - 1]).value;
      StepStaysServing(source, chunk, s, actions[|actions| - 1]);
    }
  }

  lemma StepStaysServing(source: seq<Byte>, chunk: nat, s: State, a: Action)
    requires chunk > 0 && |source| % chunk == 0 && !a.Timeout?
    requires Lockstep(source, chunk, s) && s.server.phase.Serving? && Apply(source, chunk, s, a).Some?
    ensures Apply(source, chunk, s, a).value.server.phase.Serving?
  {
    if a.Serve? {
      RequestIsAnswered(source, chunk, s.server, s.requests[0]);
      TotalIsCeiling(|source|, chunk, s.requests[0]);
      EndOfFileExactly(|source|, chunk, s.requests[0]);
    }
  }
}
