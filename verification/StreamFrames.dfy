/**
  The frames of an attachment stream: their layout for a ciphertext length,
  their plaintext, their record with header and counter.
 */
module StreamFrames {
  import opened Basics
  import opened Bytes

  const PAYLOAD_BYTES: nat := 262_144
  const PLAINTEXT_BYTES: nat := 262_152
  const HEADER_BYTES: nat := 16
  const FRAME_BYTES: nat := 262_184
  const MAX_BUCKET_FRAMES: nat := 1024
  const MAX_CIPHERTEXT_BYTES: nat := 800 * 262_201

  const MAGIC: seq<Byte> := [0x41, 0x42, 0x53, 0x31]
  const VERSION: Byte := 11
  const DATA: Byte := 1
  const PADDING: Byte := 2
  const END: Byte := 3

  // ---- Layout -------------------------------------------------------------

  datatype Layout = Layout(ciphertextLen: nat, dataFrames: nat, bucketFrames: nat)

  /** `attachment_data_frame_count` */
  function DataFrameCount(len: nat): Option<nat> {
    if len == 0 || len > MAX_CIPHERTEXT_BYTES then None else Some((len + PAYLOAD_BYTES - 1) / PAYLOAD_BYTES)
  }

  /** The first of p, 2p, 4p, .. that reaches n. */
  function DoubledUntil(p: nat, n: nat): nat
    requires p > 0
    decreases n - p
  {
    if p >= n then p else DoubledUntil(2 * p, n)
  }

  /** `attachment_bucket_frame_count` */
  function BucketFrameCount(dataFrames: nat): Option<nat> {
    if dataFrames == 0 || dataFrames > MAX_BUCKET_FRAMES then None
    else
      var count := DoubledUntil(1, dataFrames);
      if count <= MAX_BUCKET_FRAMES then Some(count) else None
  }

  function LayoutFor(len: nat): Option<Layout> {
    var data := DataFrameCount(len);
    if data.None? then None
    else
      var bucket := BucketFrameCount(data.value);
      if bucket.None? then None else Some(Layout(len, data.value, bucket.value))
  }

  ghost predicate PowerOfTwo(n: nat) {
    exists k: nat :: n == Pow2(k)
  }

  /** Just enough data frames, in a bucket that holds them. */
  predicate Legal(l: Layout) {
    && 0 < l.dataFrames <= l.bucketFrames <= MAX_BUCKET_FRAMES
    && (l.dataFrames - 1) * PAYLOAD_BYTES < l.ciphertextLen <= l.dataFrames * PAYLOAD_BYTES
  }

  lemma {:induction false} DoublingReaches(k: nat, n: nat)
    ensures var p := DoubledUntil(Pow2(k), n);
      && PowerOfTwo(p) && p >= n && p >= Pow2(k)
      && (forall j: nat :: j >= k && Pow2(j) >= n ==> p <= Pow2(j))
    decreases n - Pow2(k)
  {
    var p := Pow2(k);
    if p < n {
      assert Pow2(k + 1) == 2 * p;
      DoublingReaches(k + 1, n);
      forall j: nat | j >= k && Pow2(j) >= n
        ensures DoubledUntil(p, n) <= Pow2(j)
      {
        assert j != k;
      }
    } else {
      forall j: nat | j >= k ensures p <= Pow2(j) {
        Pow2Grows(k, j);
      }
    }
  }

  lemma {:induction false} Pow2Grows(k: nat, j: nat)
    requires k <= j
    ensures Pow2(k) <= Pow2(j)
  {
    if k < j { Pow2Grows(k, j - 1); }
  }

  /** Every legal length has a layout: the bucket is the least power of two that holds the data frames. */
  lemma LayoutIsLeast(len: nat)
    requires 0 < len <= MAX_CIPHERTEXT_BYTES
    ensures LayoutFor(len).Some? && Legal(LayoutFor(len).value) && LayoutFor(len).value.ciphertextLen == len
    ensures var l := LayoutFor(len).value;
      && l.dataFrames <= 801 && PowerOfTwo(l.bucketFrames)
      && (forall k: nat :: Pow2(k) >= l.dataFrames ==> l.bucketFrames <= Pow2(k))
  {
    var n := (len + PAYLOAD_BYTES - 1) / PAYLOAD_BYTES;
    assert 0 < n <= 801;
    DoublingReaches(0, n);
    assert Pow2(10) == 1024;
  }

  /** A layout exists exactly for the lengths that may be sent. */
  lemma LayoutIff(len: nat)
    ensures LayoutFor(len).Some? <==> 0 < len <= MAX_CIPHERTEXT_BYTES
    ensures DataFrameCount(len).Some? <==> 0 < len <= MAX_CIPHERTEXT_BYTES
  {
    if 0 < len <= MAX_CIPHERTEXT_BYTES { LayoutIsLeast(len); }
  }

  /** A bucket exists exactly for up to 1024 data frames, and it is the least power of two that holds them. */
  lemma BucketIff(n: nat)
    ensures BucketFrameCount(n).Some? <==> 0 < n <= MAX_BUCKET_FRAMES
    ensures var b := BucketFrameCount(n);
      b.Some? ==> PowerOfTwo(b.value) && b.value >= n && forall k: nat :: Pow2(k) >= n ==> b.value <= Pow2(k)
  {
    DoublingReaches(0, n);
    assert Pow2(10) == 1024;
  }

  // ---- Plaintext ----------------------------------------------------------

  datatype Frame = Data(payload: seq<Byte>) | Padding | End

  function KindOf(f: Frame): Byte {
    match f case Data(_) => DATA case Padding => PADDING case End => END
  }

  function PayloadOf(f: Frame): seq<Byte> {
    match f case Data(payload) => payload case _ => []
  }

  /** What `frame_plaintext` accepts. */
  predicate WellFormed(f: Frame) {
    f.Data? ==> 0 < |f.payload| <= PAYLOAD_BYTES
  }

  /** `frame_plaintext`; the filler is random. */
  function FramePlaintext(f: Frame, filler: seq<Byte>): (p: seq<Byte>)
    requires WellFormed(f) && |PayloadOf(f)| + |filler| == PAYLOAD_BYTES
    ensures |p| == PLAINTEXT_BYTES
  {
    [KindOf(f)] + [0, 0, 0] + Be(|PayloadOf(f)|, 4) + PayloadOf(f) + filler
  }

  /** `decode_frame_plaintext` */
  function DecodeFrame(p: seq<Byte>): Option<Frame> {
    if |p| != PLAINTEXT_BYTES || p[1..4] != [0, 0, 0] then None
    else
      var len := FromBe(p[4..8]);
      if len > PAYLOAD_BYTES then None
      else if p[0] == DATA && len > 0 then Some(Data(p[8..8 + len]))
      else if p[0] == PADDING && len == 0 then Some(Padding)
      else if p[0] == END && len == 0 then Some(End)
      else None
  }

  lemma FrameRoundTrip(f: Frame, filler: seq<Byte>)
    requires WellFormed(f) && |PayloadOf(f)| + |filler| == PAYLOAD_BYTES
    ensures DecodeFrame(FramePlaintext(f, filler)) == Some(f)
  {
    var p, len := FramePlaintext(f, filler), |PayloadOf(f)|;
    Widths();
    BeRoundTrip(len, 4);
    assert p[1..4] == [0, 0, 0] && p[4..8] == Be(len, 4) && p[8..8 + len] == PayloadOf(f);
  }

  /** Only the canonical plaintext of a frame decodes to it; the filler alone is free. */
  lemma FrameCanonical(p: seq<Byte>)
    requires DecodeFrame(p).Some?
    ensures var f := DecodeFrame(p).value;
      && WellFormed(f) && |PayloadOf(f)| <= PAYLOAD_BYTES
      && p == FramePlaintext(f, p[8 + |PayloadOf(f)|..])
  {
    var f := DecodeFrame(p).value;
    var len := |PayloadOf(f)|;
    FromBeCanonical(p[4..8]);
    assert p == [p[0]] + p[1..4] + p[4..8] + p[8..8 + len] + p[8 + len..];
  }

  // ---- Records ------------------------------------------------------------

  /** An ideal cipher under one key: what it opens is what was sealed with the same counter. */
  datatype Cipher = Cipher(seal: (nat, seq<Byte>) -> seq<Byte>, open: (nat, seq<Byte>) -> Option<seq<Byte>>)

  ghost predicate Faithful(c: Cipher) {
    forall counter: nat, p :: |p| == PLAINTEXT_BYTES ==> SealsOne(c, counter, p)
  }

  ghost predicate SealsOne(c: Cipher, counter: nat, p: seq<Byte>) {
    |c.seal(counter, p)| == PLAINTEXT_BYTES + 16 && c.open(counter, c.seal(counter, p)) == Some(p)
  }

  /** `stream_header` */
  function Header(direction: Byte, counter: nat): (h: seq<Byte>)
    ensures |h| == HEADER_BYTES
  {
    MAGIC + [VERSION] + [direction] + [0, 0] + Be(counter, 8)
  }

  /** The record of one frame. */
  function RecordOf(cipher: Cipher, direction: Byte, counter: nat, f: Frame, filler: seq<Byte>): seq<Byte>
    requires WellFormed(f) && |PayloadOf(f)| + |filler| == PAYLOAD_BYTES
  {
    Header(direction, counter) + cipher.seal(counter, FramePlaintext(f, filler))
  }

  /** `decode_stream_record` and the decryption, for the counter that is due. */
  function FrameIn(cipher: Cipher, direction: Byte, due: nat, record: seq<Byte>): Option<Frame> {
    if |record| != FRAME_BYTES then None
    else if record[..4] != MAGIC || record[4] != VERSION || record[6..8] != [0, 0] then None
    else if record[5] != 1 && record[5] != 2 then None
    else if record[5] != direction || FromBe(record[8..16]) != due then None
    else
      var p := cipher.open(due, record[16..]);
      if p.None? then None else DecodeFrame(p.value)
  }

  lemma RecordRoundTrip(cipher: Cipher, direction: Byte, counter: nat, f: Frame, filler: seq<Byte>)
    requires Faithful(cipher) && counter <= U64_MAX && (direction == 1 || direction == 2)
    requires WellFormed(f) && |PayloadOf(f)| + |filler| == PAYLOAD_BYTES
    ensures |RecordOf(cipher, direction, counter, f, filler)| == FRAME_BYTES
    ensures FrameIn(cipher, direction, counter, RecordOf(cipher, direction, counter, f, filler)) == Some(f)
  {
    var p, record := FramePlaintext(f, filler), RecordOf(cipher, direction, counter, f, filler);
    assert SealsOne(cipher, counter, p);
    Widths();
    BeRoundTrip(counter, 8);
    FrameRoundTrip(f, filler);
    assert record[..4] == MAGIC && record[6..8] == [0, 0] && record[8..16] == Be(counter, 8);
    assert record[16..] == cipher.seal(counter, p);
  }

  // ---- Record codecs ------------------------------------------------------

  /** How the endpoints of one stream turn frames into records and back. */
  datatype Codec = Codec(encode: (nat, Frame, seq<Byte>) -> seq<Byte>, decode: (nat, seq<Byte>) -> Option<Frame>)

  predicate Fillable(f: Frame, filler: seq<Byte>) {
    WellFormed(f) && |PayloadOf(f)| + |filler| == PAYLOAD_BYTES
  }

  ghost predicate Invertible(c: Codec) {
    forall counter: nat, f, filler :: counter <= U64_MAX && Fillable(f, filler) ==> InvertsOne(c, counter, f, filler)
  }

  ghost predicate InvertsOne(c: Codec, counter: nat, f: Frame, filler: seq<Byte>) {
    |c.encode(counter, f, filler)| == FRAME_BYTES && c.decode(counter, c.encode(counter, f, filler)) == Some(f)
  }

  function RecordCodec(cipher: Cipher, direction: Byte): Codec {
    Codec((counter: nat, f: Frame, filler: seq<Byte>) =>
            if Fillable(f, filler) then RecordOf(cipher, direction, counter, f, filler) else [],
          (due: nat, record: seq<Byte>) => FrameIn(cipher, direction, due, record))
  }

  /** With an ideal cipher the records of the transport carry frames faithfully. */
  lemma RecordCodecInverts(cipher: Cipher, direction: Byte)
    requires Faithful(cipher) && (direction == 1 || direction == 2)
    ensures Invertible(RecordCodec(cipher, direction))
  {
    var c := RecordCodec(cipher, direction);
    forall counter: nat, f, filler | counter <= U64_MAX && Fillable(f, filler)
      ensures InvertsOne(c, counter, f, filler)
    {
      RecordRoundTrip(cipher, direction, counter, f, filler);
    }
  }
}
