/**
 The raw file of a read window: one 104-byte record an arrival, nine big-endian counters and a digest.
 */
module ReadRecords {
  import opened ByteStreams

  const WORD: nat := 8

  const DIGEST: nat := 32

  const COUNTERS: nat := 9

  const HEAD: nat := 72

  const RECORD: nat := 104

  /** One recorded arrival. */
  datatype Attempt = Attempt(
    index: nat, entity: nat, scheduled: nat, generated: nat, dispatched: nat, terminal: nat,
    minimum: nat, observed: nat, outcome: nat, digest: seq<Byte>)

  // ----- big-endian numbers

  function Power(width: nat): (p: nat)
    ensures p > 0
  {
    if width == 0 then 1 else 256 * Power(width - 1)
  }

  /** The number a run of bytes stands for, most significant first. */
  function Number(bytes: seq<Byte>): nat {
    if bytes == [] then 0 else 256 * Number(bytes[..|bytes| - 1]) + bytes[|bytes| - 1]
  }

  function Digits(n: nat, width: nat): (bytes: seq<Byte>)
    ensures |bytes| == width
    decreases width
  {
    if width == 0 then [] else Digits(n / 256, width - 1) + [n % 256]
  }

  lemma {:induction false} NumberOfDigits(n: nat, width: nat)
    requires n < Power(width)
    ensures Number(Digits(n, width)) == n
    decreases width
  {
    if width > 0 {
      NumberOfDigits(n / 256, width - 1);
      assert Digits(n, width)[..width - 1] == Digits(n / 256, width - 1);
    }
  }

  lemma {:induction false} DigitsOfNumber(bytes: seq<Byte>)
    ensures Number(bytes) < Power(|bytes|) && Digits(Number(bytes), |bytes|) == bytes
    decreases |bytes|
  {
    if bytes != [] {
      var n := |bytes| - 1;
      DigitsOfNumber(bytes[..n]);
      assert bytes == bytes[..n] + [bytes[n]];
    }
  }

  // ----- one record

  /** The counters at the head of a record. */
  function Words(record: seq<Byte>): (words: seq<seq<Byte>>)
    requires |record| == RECORD
    ensures |words| == COUNTERS && Sized(words, WORD)
  {
    NineWords(record[..HEAD]);
    Chunks(record[..HEAD], WORD)
  }

  lemma {:induction false} NineWords(head: seq<Byte>)
    requires |head| == HEAD
    ensures |Chunks(head, WORD)| == COUNTERS && Remainder(head, WORD) == []
  {
    ChunkCount(head, WORD);
  }

  function Decode(record: seq<Byte>): Attempt
    requires |record| == RECORD
  {
    var w := Words(record);
    Attempt(Number(w[0]), Number(w[1]), Number(w[2]), Number(w[3]), Number(w[4]), Number(w[5]), Number(w[6]), Number(w[7]),
            Number(w[8]), record[HEAD..])
  }

  function Fields(a: Attempt): (fields: seq<nat>)
    ensures |fields| == COUNTERS
  {
    [a.index, a.entity, a.scheduled, a.generated, a.dispatched, a.terminal, a.minimum, a.observed, a.outcome]
  }

  function Written(fields: seq<nat>, width: nat): (words: seq<seq<Byte>>)
    ensures |words| == |fields| && Sized(words, width)
  {
    seq(|fields|, i requires 0 <= i < |fields| => Digits(fields[i], width))
  }

  function Encode(a: Attempt): seq<Byte> {
    Concat(Written(Fields(a), WORD)) + a.digest
  }

  predicate AllFit(fields: seq<nat>, width: nat) {
    forall i :: 0 <= i < |fields| ==> fields[i] < Power(width)
  }

  /** The counters fit in their words and the digest has its length. */
  predicate Fits(a: Attempt) {
    |a.digest| == DIGEST && AllFit(Fields(a), WORD)
  }

  lemma HeadOf(a: Attempt)
    requires Fits(a)
    ensures |Concat(Written(Fields(a), WORD))| == HEAD && |Encode(a)| == RECORD
    ensures Encode(a)[HEAD..] == a.digest && Words(Encode(a)) == Written(Fields(a), WORD)
  {
    var words := Written(Fields(a), WORD);
    ChunksOfConcat(words, WORD);
    ChunkCount(Concat(words), WORD);
    ConcatOfChunks(Concat(words), WORD);
    assert Encode(a)[..HEAD] == Concat(words);
  }

  /** Reading back a written record gives the arrival. */
  lemma DecodeEncode(a: Attempt)
    requires Fits(a)
    ensures |Encode(a)| == RECORD && Decode(Encode(a)) == a
  {
    HeadOf(a);
    forall i | 0 <= i < COUNTERS
      ensures Number(Words(Encode(a))[i]) == Fields(a)[i]
    {
      NumberOfDigits(Fields(a)[i], WORD);
    }
  }

  lemma WordsAreWritten(words: seq<seq<Byte>>, fields: seq<nat>, width: nat)
    requires |words| == |fields| && Sized(words, width)
    requires forall i :: 0 <= i < |fields| ==> fields[i] == Number(words[i])
    ensures Written(fields, width) == words && AllFit(fields, width)
  {
    forall i | 0 <= i < |fields|
      ensures Digits(fields[i], width) == words[i] && fields[i] < Power(width)
    {
      DigitsOfNumber(words[i]);
    }
  }

  /** Every 104 bytes are the record of exactly one arrival. */
  lemma EncodeDecode(record: seq<Byte>)
    requires |record| == RECORD
    ensures Encode(Decode(record)) == record && Fits(Decode(record))
  {
    var words := Words(record);
    WordsAreWritten(words, Fields(Decode(record)), WORD);
    NineWords(record[..HEAD]);
    ConcatOfChunks(record[..HEAD], WORD);
    assert record == record[..HEAD] + record[HEAD..];
  }

  // ----- the whole file

  /** The arrivals of a file, in order. */
  function DecodeAll(raw: seq<Byte>): (attempts: seq<Attempt>)
    ensures |attempts| == |Chunks(raw, RECORD)|
  {
    var chunks := Chunks(raw, RECORD);
    seq(|chunks|, i requires 0 <= i < |chunks| => Decode(chunks[i]))
  }

  function Records(attempts: seq<Attempt>): (records: seq<seq<Byte>>)
    ensures |records| == |attempts|
  {
    seq(|attempts|, i requires 0 <= i < |attempts| => Encode(attempts[i]))
  }

  function EncodeAll(attempts: seq<Attempt>): seq<Byte> {
    Concat(Records(attempts))
  }

  /** A whole file holds as many arrivals as its length allows. */
  lemma {:induction false} ArrivalCount(raw: seq<Byte>, count: nat)
    requires |raw| == count * RECORD
    ensures |DecodeAll(raw)| == count && Remainder(raw, RECORD) == []
  {
    ChunkCount(raw, RECORD);
  }

  /** A window's file gives back every arrival that was written, in order, and nothing else. */
  lemma FileRoundTrip(attempts: seq<Attempt>)
    requires forall i :: 0 <= i < |attempts| ==> Fits(attempts[i])
    ensures DecodeAll(EncodeAll(attempts)) == attempts
  {
    forall i | 0 <= i < |attempts|
      ensures |Records(attempts)[i]| == RECORD && Decode(Records(attempts)[i]) == attempts[i]
    {
      DecodeEncode(attempts[i]);
    }
    ChunksOfConcat(Records(attempts), RECORD);
  }

  /** A file of whole records is the one that holds the arrivals read from it. */
  lemma FileIsItsArrivals(raw: seq<Byte>, count: nat)
    requires |raw| == count * RECORD
    ensures EncodeAll(DecodeAll(raw)) == raw
  {
    var chunks := Chunks(raw, RECORD);
    forall i | 0 <= i < |chunks|
      ensures Encode(DecodeAll(raw)[i]) == chunks[i]
    {
      EncodeDecode(chunks[i]);
    }
    assert Records(DecodeAll(raw)) == chunks;
    ConcatOfChunks(raw, RECORD);
    ArrivalCount(raw, count);
  }

  // ----- digests as text

  const HEX: string := "0123456789abcdef"

  function Hex(bytes: seq<Byte>): (text: string)
    ensures |text| == 2 * |bytes|
  {
    if bytes == [] then [] else [HEX[bytes[0] / 16], HEX[bytes[0] % 16]] + Hex(bytes[1..])
  }

  lemma HexDigitsDiffer(i: nat, j: nat)
    requires i < 16 && j < 16 && HEX[i] == HEX[j]
    ensures i == j
  {
  }

  /** The text of a digest determines it. */
  lemma {:induction false} HexIsInjective(a: seq<Byte>, b: seq<Byte>)
    requires Hex(a) == Hex(b)
    ensures a == b
    decreases |a|
  {
    if a != [] {
      assert Hex(a)[0] == Hex(b)[0] && Hex(a)[1] == Hex(b)[1];
      HexDigitsDiffer(a[0] / 16, b[0] / 16);
      HexDigitsDiffer(a[0] % 16, b[0] % 16);
      assert Hex(a)[2..] == Hex(a[1..]) && Hex(b)[2..] == Hex(b[1..]);
      HexIsInjective(a[1..], b[1..]);
      assert a == [a[0]] + a[1..] && b == [b[0]] + b[1..];
    } else {
      assert |b| == 0;
    }
  }
}
