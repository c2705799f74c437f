/** Reading a file chunk by chunk through a stream whose end-of-file flag only shows after a read
    past the end. */
module FileReading {

  type Byte = b: int | 0 <= b < 256

  /** What std::istream::get() returns at the end, narrowed to a char. */
  const END_OF_FILE: Byte := 255

  function Min(a: nat, b: nat): nat { if a <= b then a else b }

  /** Bytes in front of chunk k. */
  function Upto(source: seq<Byte>, chunk: nat, k: nat): (n: nat)
    ensures n <= |source|
  {
    Min(k * chunk, |source|)
  }

  /** The k-th slice of the file. */
  function Slice(source: seq<Byte>, chunk: nat, k: nat): seq<Byte> {
    source[Upto(source, chunk, k)..Min(Upto(source, chunk, k) + chunk, |source|)]
  }

  lemma OneMore(chunk: nat, k: nat)
    ensures (k + 1) * chunk == k * chunk + chunk
  {
  }

  lemma SliceExtends(source: seq<Byte>, chunk: nat, k: nat)
    ensures source[..Upto(source, chunk, k)] + Slice(source, chunk, k) == source[..Upto(source, chunk, k + 1)]
  {
    OneMore(chunk, k);
  }

  /** ceil(size / chunk), as the fetching side computes it. */
  function TotalChunks(size: nat, chunk: nat): nat
    requires chunk > 0
  {
    size / chunk + if size % chunk != 0 then 1 else 0
  }

  lemma MulMonotone(a: nat, b: nat, chunk: nat)
    requires a <= b
    ensures a * chunk <= b * chunk
  {
  }

  /** There are exactly as many chunks as it takes to cover the file. */
  lemma TotalIsCeiling(size: nat, chunk: nat, k: nat)
    requires chunk > 0
    ensures k < TotalChunks(size, chunk) <==> k * chunk < size
  {
    var q := size / chunk;
    assert size == q * chunk + size % chunk;
    if k < q {
      MulMonotone(k + 1, q, chunk);
      OneMore(chunk, k);
    } else if k > q {
      MulMonotone(q + 1, k, chunk);
      OneMore(chunk, q);
    }
  }

  // ---- the reader ----

  /** Position, end-of-file flag and buffer. */
  datatype Reader = Reader(pos: nat, eof: bool, buffer: seq<Byte>)

  const OPENED := Reader(0, false, [])

  /** getNextChunk, in one step. */
  function Read(source: seq<Byte>, chunk: nat, r: Reader): Reader
    requires r.pos <= |source|
  {
    var until := Min(r.pos + chunk, |source|);
    Reader(until, r.pos + chunk > |source|, source[r.pos..until])
  }

  /** The reader after k chunks have been asked for. */
  predicate Positioned(source: seq<Byte>, chunk: nat, k: nat, r: Reader) {
    && r.pos == Upto(source, chunk, k)
    && (r.eof <==> k * chunk > |source|)
    && (k > 0 ==> r.buffer == Slice(source, chunk, k - 1))
  }

  /** Unless the file has been read past its end, the next call returns the next slice. */
  lemma NextChunkIsNextSlice(source: seq<Byte>, chunk: nat, k: nat, r: Reader)
    requires chunk > 0 && Positioned(source, chunk, k, r) && !r.eof
    ensures Positioned(source, chunk, k + 1, Read(source, chunk, r))
    ensures Read(source, chunk, r).buffer == Slice(source, chunk, k)
  {
    OneMore(chunk, k);
  }

  /** The flag shows with chunk number size / chunk: with the last chunk if that one is not full,
      with one chunk more than there are otherwise. */
  lemma EndOfFileExactly(size: nat, chunk: nat, k: nat)
    requires chunk > 0 && k * chunk <= size
    ensures (k + 1) * chunk > size <==> k == size / chunk
  {
    var q := size / chunk;
    assert size == q * chunk + size % chunk;
    OneMore(chunk, k);
    OneMore(chunk, q);
    if k < q {
      MulMonotone(k + 1, q, chunk);
    } else if k > q {
      MulMonotone(q + 1, k, chunk);
    }
  }

  class FileHelper {
    const source: seq<Byte>
    const chunkSize: nat
    var pos: nat
    var eof: bool
    var buffer: seq<Byte>

    ghost predicate Valid()
      reads this
    {
      pos <= |source|
    }

    function View(): Reader
      reads this
    {
      Reader(pos, eof, buffer)
    }

    constructor (source: seq<Byte>, chunkSize: nat)
      ensures Valid() && View() == OPENED && this.source == source && this.chunkSize == chunkSize
    {
      this.source, this.chunkSize := source, chunkSize;
      pos, eof, buffer := 0, false, [];
    }

    predicate IsEOF()
      reads this
    {
      eof
    }

    /** std::istream::get(). */
    method Get() returns (b: Byte)
      requires Valid()
      modifies this`pos, this`eof
      ensures Valid()
      ensures old(pos) < |source| ==> b == source[old(pos)] && pos == old(pos) + 1 && eof == old(eof)
      ensures old(pos) == |source| ==> b == END_OF_FILE && pos == old(pos) && eof
    {
      if pos < |source| {
        b := source[pos];
        pos := pos + 1;
      } else {
        b := END_OF_FILE;
        eof := true;
      }
    }

    /** Reads up to chunkSize bytes.  The byte appended by the read past the end is taken off again,
        which would be an error if the end had been reached before the call. */
    method GetNextChunk() returns (chunk: seq<Byte>)
      requires Valid() && !eof
      modifies this
      ensures Valid() && View() == Read(source, chunkSize, old(View())) && chunk == buffer
    {
      var count: nat := 0;
      buffer := [];
      ghost var start := pos;
      while !eof && count < chunkSize
        invariant Valid() && count <= chunkSize && start <= pos
        invariant !eof ==> pos == start + count && buffer == source[start..pos]
        invariant eof ==> pos == |source| && start + count == pos + 1 && buffer == source[start..] + [END_OF_FILE]
      {
        count := count + 1;
        var b := Get();
        buffer := buffer + [b];
      }
      if eof {
        buffer := buffer[..|buffer| - 1];
      }
      chunk := buffer;
    }

    method GetPrevChunk() returns (chunk: seq<Byte>)
      ensures chunk == View().buffer
    {
      chunk := buffer;
    }
  }
}
