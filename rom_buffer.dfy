/**
 * The ROM byte accumulator of the demo page: every `load` event of the
 * file reader delivers a chunk, and the handler allocates a new byte array
 * holding the old buffer followed by the chunk, then rebinds `buffer` to it.
 */
module RomBuffer {

  /** Reference definition: the chunks concatenated in delivery order. */
  function Concat(chunks: seq<seq<bv8>>): seq<bv8>
  {
    if chunks == [] then [] else chunks[0] + Concat(chunks[1..])
  }

  /** The sum of the chunk lengths. */
  function TotalLength(chunks: seq<seq<bv8>>): nat
  {
    if chunks == [] then 0 else |chunks[0]| + TotalLength(chunks[1..])
  }

  /** Appending one more chunk extends the concatenation by exactly that chunk. */
  lemma {:induction false} ConcatSnoc(chunks: seq<seq<bv8>>, chunk: seq<bv8>)
    ensures Concat(chunks + [chunk]) == Concat(chunks) + chunk
  {
    if chunks == [] {
      assert [] + [chunk] == [chunk];
      assert Concat([chunk]) == chunk + Concat([]);
    } else {
      assert (chunks + [chunk])[1..] == chunks[1..] + [chunk];
      ConcatSnoc(chunks[1..], chunk);
    }
  }

  /** The assembled image is as long as all chunks together. */
  lemma {:induction false} ConcatLength(chunks: seq<seq<bv8>>)
    ensures |Concat(chunks)| == TotalLength(chunks)
  {
    if chunks != [] {
      ConcatLength(chunks[1..]);
    }
  }

  /** An empty chunk adds nothing to the assembled image. */
  lemma EmptyChunkIsNoOp(chunks: seq<seq<bv8>>)
    ensures Concat(chunks + [[]]) == Concat(chunks)
  {
    ConcatSnoc(chunks, []);
  }

  /**
   * The body of `reader.onload`: a new array of the combined length, the old
   * buffer copied to its front (`tmp.set(buffer)`) and the chunk copied after
   * it (`tmp.set(data, buffer.length)`).
   */
  method Append(buffer: array<bv8>, data: array<bv8>) returns (tmp: array<bv8>)
    ensures fresh(tmp)
    ensures tmp.Length == buffer.Length + data.Length
    ensures tmp[..buffer.Length] == buffer[..]
    ensures tmp[buffer.Length..] == data[..]
    ensures tmp[..] == buffer[..] + data[..]
  {
    tmp := new bv8[buffer.Length + data.Length];
    var i := 0;
    while i < buffer.Length
      invariant 0 <= i <= buffer.Length
      invariant forall k :: 0 <= k < i ==> tmp[k] == buffer[k]
    {
      tmp[i] := buffer[i];
      i := i + 1;
    }
    var j := 0;
    while j < data.Length
      invariant 0 <= j <= data.Length
      invariant forall k :: 0 <= k < buffer.Length ==> tmp[k] == buffer[k]
      invariant forall k :: 0 <= k < j ==> tmp[buffer.Length + k] == data[k]
    {
      tmp[buffer.Length + j] := data[j];
      j := j + 1;
    }
    assert tmp[..] == tmp[..buffer.Length] + tmp[buffer.Length..];
  }

  /**
   * The state one file selection owns: the `buffer` variable the `load`
   * handler rebinds, and (as a ghost) the chunks delivered so far.
   */
  class Upload {
    var buffer: array<bv8>
    ghost var chunks: seq<seq<bv8>>

    /** The buffer is always the concatenation of the chunks in call order. */
    ghost predicate Valid()
      reads this, buffer
    {
      buffer[..] == Concat(chunks)
    }

    /** `let buffer = new Uint8Array()`: an empty buffer, no chunks yet. */
    constructor ()
      ensures Valid()
      ensures chunks == [] && buffer.Length == 0
    {
      buffer := new bv8[0];
      chunks := [];
    }

    /** One `load` event carrying `data`. */
    method OnLoad(data: array<bv8>)
      requires Valid()
      modifies this
      ensures Valid()
      ensures fresh(buffer)
      ensures chunks == old(chunks) + [data[..]]
      ensures buffer.Length == old(buffer.Length) + data.Length
      ensures buffer[..] == old(buffer[..]) + data[..]
    {
      var tmp := Append(buffer, data);
      ConcatSnoc(chunks, data[..]);
      buffer := tmp;
      chunks := chunks + [data[..]];
    }
  }
}
