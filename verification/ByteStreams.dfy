/** Bytes, the lines a newline ends, and chunks of a stream. */
module ByteStreams {

  type Byte = b: int | 0 <= b < 256

  const NEWLINE: Byte := 10

  /** How many bytes precede the first newline; all of them if there is none. */
  function Cut(b: seq<Byte>): (n: nat)
    ensures n <= |b|
  {
    if b == [] || b[0] == NEWLINE then 0 else Cut(b[1..]) + 1
  }

  lemma {:induction false} CutFinds(b: seq<Byte>)
    ensures NEWLINE !in b[..Cut(b)] && (Cut(b) < |b| ==> b[Cut(b)] == NEWLINE)
    decreases |b|
  {
    if b != [] && b[0] != NEWLINE {
      CutFinds(b[1..]);
      assert b[..Cut(b)] == [b[0]] + b[1..][..Cut(b) - 1];
    }
  }

  predicate HasLine(b: seq<Byte>) {
    Cut(b) < |b|
  }

  function Concat(chunks: seq<seq<Byte>>): seq<Byte> {
    if chunks == [] then [] else chunks[0] + Concat(chunks[1..])
  }

  lemma {:induction false} ConcatJoin(a: seq<seq<Byte>>, b: seq<seq<Byte>>)
    ensures Concat(a + b) == Concat(a) + Concat(b)
    decreases |a|
  {
    if a == [] {
      assert a + b == b;
    } else {
      assert (a + b)[0] == a[0] && (a + b)[1..] == a[1..] + b;
      ConcatJoin(a[1..], b);
    }
  }

  // ----- chunks of one size

  predicate Sized(chunks: seq<seq<Byte>>, size: nat) {
    forall k :: 0 <= k < |chunks| ==> |chunks[k]| == size
  }

  /** The whole chunks a run of bytes holds, in order. */
  function Chunks(bytes: seq<Byte>, size: nat): (chunks: seq<seq<Byte>>)
    requires size > 0
    ensures Sized(chunks, size)
    decreases |bytes|
  {
    if |bytes| < size then [] else [bytes[..size]] + Chunks(bytes[size..], size)
  }

  /** What is left after the last whole chunk. */
  function Remainder(bytes: seq<Byte>, size: nat): (rest: seq<Byte>)
    requires size > 0
    ensures |rest| < size
    decreases |bytes|
  {
    if |bytes| < size then bytes else Remainder(bytes[size..], size)
  }

  lemma {:induction false} ChunksOfConcat(chunks: seq<seq<Byte>>, size: nat)
    requires size > 0 && Sized(chunks, size)
    ensures Chunks(Concat(chunks), size) == chunks
    decreases |chunks|
  {
    if chunks != [] {
      ChunksOfConcat(chunks[1..], size);
      assert Concat(chunks)[..size] == chunks[0] && Concat(chunks)[size..] == Concat(chunks[1..]);
    }
  }

  lemma {:induction false} ConcatOfChunks(bytes: seq<Byte>, size: nat)
    requires size > 0
    ensures Concat(Chunks(bytes, size)) + Remainder(bytes, size) == bytes
    decreases |bytes|
  {
    if |bytes| >= size {
      ConcatOfChunks(bytes[size..], size);
      assert Chunks(bytes, size)[1..] == Chunks(bytes[size..], size);
      assert bytes == bytes[..size] + bytes[size..];
    }
  }

  lemma {:induction false} ChunkCount(bytes: seq<Byte>, size: nat)
    requires size > 0
    ensures |bytes| == size * |Chunks(bytes, size)| + |Remainder(bytes, size)|
    decreases |bytes|
  {
    if |bytes| >= size {
      ChunkCount(bytes[size..], size);
      OneMore(size, |Chunks(bytes[size..], size)|);
    }
  }

  lemma OneMore(size: nat, n: nat)
    ensures size * (n + 1) == size * n + size
  {
  }
}
