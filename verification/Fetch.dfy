/** The two fetch threads, with the fields they update, and a transfer in which nothing is lost. */
module FetchCode {
  import opened Options
  import opened FileReading
  import T = Transfer

  class FetchClient {
    var clientChunkCount: nat
    var target: seq<Byte>  // the file appended to

    function View(): T.Client
      reads this
    {
      T.Client(clientChunkCount, target)
    }

    constructor ()
      ensures View() == T.Init().client
    {
      clientChunkCount, target := 0, [];
    }

    method RecvNextChunk(chunkId: int, data: seq<Byte>, chunkSize: int)
      modifies this
      ensures View() == T.Receive(old(View()), T.Reply(chunkId, data, chunkSize))
    {
      if chunkId != clientChunkCount {
        return;
      }
      if |data| != chunkSize {
        return;
      }
      clientChunkCount := clientChunkCount + 1;
      target := target + data;
    }
  }

  class FetchServer {
    const fp: FileHelper
    var serverChunkCount: int
    var chunkCount: int
    var phase: T.Phase  // where the thread is

    ghost predicate Valid()
      reads this, fp
    {
      fp.Valid()
    }

    function View(): T.Server
      reads this, fp
    {
      T.Server(phase, serverChunkCount, chunkCount, fp.View())
    }

    constructor (source: seq<Byte>, chunkSize: nat)
      ensures Valid() && View() == T.Init().server && fresh(fp) && fp.source == source && fp.chunkSize == chunkSize
    {
      fp := new FileHelper(source, chunkSize);
      serverChunkCount, chunkCount, phase := -1, -1, T.Serving;
    }

    /** sendNextChunk, called while the request is parsed. */
    method SendNextChunk(id: int)
      modifies this`serverChunkCount
      ensures serverChunkCount == id
    {
      serverChunkCount := id;
    }

    /** One pass of the main loop. */
    method ServeOne(id: int) returns (reply: Option<T.Reply>)
      requires Valid() && phase == T.Serving && !fp.IsEOF()
      modifies this, fp
      ensures Valid()
      ensures (View(), reply) == T.Answer(fp.source, fp.chunkSize, old(View()), id)
    {
      SendNextChunk(id);
      if serverChunkCount >= 0 && serverChunkCount == chunkCount {
        var tmp := fp.GetPrevChunk();
        reply := Some(T.Reply(chunkCount, tmp, |tmp|));
      } else if serverChunkCount == chunkCount + 1 {
        var tmp := fp.GetNextChunk();
        chunkCount := chunkCount + 1;
        reply := Some(T.Reply(chunkCount, tmp, |tmp|));
        if fp.IsEOF() {
          phase := T.LastPiece;
        }
      } else {
        phase := T.Aborted;
        reply := None;
      }
    }

    /** After the main loop: one more request for the last piece. */
    method ServeLastPiece(id: int) returns (reply: Option<T.Reply>)
      requires Valid() && phase == T.LastPiece
      modifies this
      ensures Valid()
      ensures (View(), reply) == T.Answer(fp.source, fp.chunkSize, old(View()), id)
    {
      SendNextChunk(id);
      if serverChunkCount >= 0 && serverChunkCount == chunkCount {
        var tmp := fp.GetPrevChunk();
        reply := Some(T.Bare(tmp));
        phase := T.Done;
      } else {
        reply := None;
        phase := T.Aborted;
      }
    }
  }

  /** Both threads together when every request and every reply arrives: the file is complete after
      exactly one exchange per chunk, whether or not the last one is full, and after none at all
      for an empty file. */
  method Fetch(source: seq<Byte>, chunkSize: nat) returns (target: seq<Byte>, exchanges: nat)
    requires chunkSize > 0
    ensures target == source
    ensures exchanges == TotalChunks(|source|, chunkSize)
  {
    var totalChunks: nat := |source| / chunkSize;
    if |source| % chunkSize != 0 {
      totalChunks := totalChunks + 1;
    }
    var client := new FetchClient();
    var server := new FetchServer(source, chunkSize);
    exchanges := 0;
    TotalIsCeiling(|source|, chunkSize, 0);
    while client.clientChunkCount < totalChunks
      invariant server.Valid() && T.ServerOk(source, chunkSize, server.View())
      invariant client.clientChunkCount == server.chunkCount + 1 == exchanges <= totalChunks
      invariant client.target == source[..Upto(source, chunkSize, exchanges)]
      invariant server.phase == T.Serving || exchanges == totalChunks
      decreases totalChunks - client.clientChunkCount
    {
      var id := client.clientChunkCount;
      T.RequestIsAnswered(source, chunkSize, server.View(), id);
      SliceExtends(source, chunkSize, id);
      var reply := server.ServeOne(id);
      exchanges := exchanges + 1;
      match reply.value {
        case Reply(chunkId, data, size) => client.RecvNextChunk(chunkId, data, size);
        case Bare(_) =>
      }
    }
    TotalIsCeiling(|source|, chunkSize, exchanges);
    target := client.target;
  }
}
