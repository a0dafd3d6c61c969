/**
  The attachment stream: a sealer and an opener that walk through the same
  states, the download loop that emits a stream, and the upload loop that puts
  one together again from chunks of any size.
 */
module AttachmentStream {
  import opened Basics
  import opened Bytes
  import opened StreamFrames

  /** The parties of one stream: its record codec and its layout. */
  datatype Context = Context(codec: Codec, layout: Layout)

  /** The counters that sealer and opener keep. */
  datatype Progress = Progress(next: nat, data: nat, padding: nat, bytes: nat, ended: bool)

  const Initial := Progress(0, 0, 0, 0, false)

  /** `expected_data_len` */
  function ExpectedLen(l: Layout, seen: nat): Option<nat> {
    if seen >= l.dataFrames || l.ciphertextLen < seen * PAYLOAD_BYTES then None
    else Some(Min(l.ciphertextLen - seen * PAYLOAD_BYTES, PAYLOAD_BYTES))
  }

  /** The rules of `accept_frame`, which are those of the sealer as well. */
  function Accepted(l: Layout, s: Progress, f: Frame): Option<Progress> {
    match f
    case Data(payload) =>
      if s.padding != 0 || ExpectedLen(l, s.data) != Some(|payload|) then None
      else Some(s.(data := s.data + 1, bytes := s.bytes + |payload|))
    case Padding =>
      if s.data != l.dataFrames || s.data + s.padding >= l.bucketFrames then None
      else Some(s.(padding := s.padding + 1))
    case End =>
      if s.bytes != l.ciphertextLen || s.data + s.padding != l.bucketFrames then None
      else Some(s.(ended := true))
  }

  function Advanced(l: Layout, s: Progress, f: Frame): Option<Progress> {
    if s.ended || s.next == U64_MAX then None
    else
      var a := Accepted(l, s, f);
      if a.None? then None else Some(a.value.(next := s.next + 1))
  }

  // ---- The language of a stream -------------------------------------------

  /** What the i-th frame of a stream has to be. */
  predicate Fitting(l: Layout, i: nat, f: Frame) {
    if i < l.dataFrames then f.Data? && ExpectedLen(l, i) == Some(|f.payload|)
    else if i < l.bucketFrames then f.Padding?
    else i == l.bucketFrames && f.End?
  }

  /** The counters after the first n frames of a stream. */
  function ProgressAt(l: Layout, n: nat): Progress {
    Progress(n, Min(n, l.dataFrames), SatSub(Min(n, l.bucketFrames), l.dataFrames),
             Min(n * PAYLOAD_BYTES, l.ciphertextLen), n == l.bucketFrames + 1)
  }

  /** From each reachable state exactly the frames of the language are accepted, in order. */
  lemma AcceptsExactly(l: Layout, n: nat, f: Frame)
    requires Legal(l) && n <= l.bucketFrames + 1
    ensures Advanced(l, ProgressAt(l, n), f) == if Fitting(l, n, f) then Some(ProgressAt(l, n + 1)) else None
  {
  }

  // ---- Reference reading of a byte stream ---------------------------------

  function Slice(body: seq<Byte>, i: nat): seq<Byte>
    requires (i + 1) * FRAME_BYTES <= |body|
  {
    body[i * FRAME_BYTES..(i + 1) * FRAME_BYTES]
  }

  predicate FrameFits(ctx: Context, body: seq<Byte>, i: nat)
    requires (i + 1) * FRAME_BYTES <= |body|
  {
    var f := ctx.codec.decode(i, Slice(body, i));
    f.Some? && Fitting(ctx.layout, i, f.value)
  }

  predicate GoodUpTo(ctx: Context, body: seq<Byte>, n: nat)
    requires n * FRAME_BYTES <= |body|
  {
    n == 0 || (GoodUpTo(ctx, body, n - 1) && FrameFits(ctx, body, n - 1))
  }

  function PayloadsUpTo(ctx: Context, body: seq<Byte>, n: nat): seq<Byte>
    requires n * FRAME_BYTES <= |body| && GoodUpTo(ctx, body, n)
  {
    if n == 0 then [] else PayloadsUpTo(ctx, body, n - 1) + PayloadOf(ctx.codec.decode(n - 1, Slice(body, n - 1)).value)
  }

  function StreamBytes(l: Layout): nat {
    (l.bucketFrames + 1) * FRAME_BYTES
  }

  /** A body is a stream if it has the exact length and every frame fits its place. */
  predicate IsStream(ctx: Context, body: seq<Byte>) {
    |body| == StreamBytes(ctx.layout) && GoodUpTo(ctx, body, ctx.layout.bucketFrames + 1)
  }

  function Received(ctx: Context, body: seq<Byte>): Option<seq<Byte>> {
    if IsStream(ctx, body) then Some(PayloadsUpTo(ctx, body, ctx.layout.bucketFrames + 1)) else None
  }

  lemma {:induction false} GoodBefore(ctx: Context, body: seq<Byte>, n: nat, i: nat)
    requires i < n && n * FRAME_BYTES <= |body| && GoodUpTo(ctx, body, n)
    ensures FrameFits(ctx, body, i)
  {
    if i < n - 1 { GoodBefore(ctx, body, n - 1, i); }
  }

  lemma {:induction false} PayloadsLength(ctx: Context, body: seq<Byte>, n: nat)
    requires Legal(ctx.layout) && n <= ctx.layout.bucketFrames + 1
    requires n * FRAME_BYTES <= |body| && GoodUpTo(ctx, body, n)
    ensures |PayloadsUpTo(ctx, body, n)| == Min(n * PAYLOAD_BYTES, ctx.layout.ciphertextLen)
  {
    if n > 0 { PayloadsLength(ctx, body, n - 1); }
  }

  /** A stream is n data frames, b - n padding frames and one end frame; its payloads fill the declared length. */
  lemma StreamShape(ctx: Context, body: seq<Byte>, i: nat)
    requires Legal(ctx.layout) && IsStream(ctx, body) && i <= ctx.layout.bucketFrames
    ensures (i + 1) * FRAME_BYTES <= |body| && ctx.codec.decode(i, Slice(body, i)).Some?
    ensures var f := ctx.codec.decode(i, Slice(body, i)).value;
      && (f.Data? <==> i < ctx.layout.dataFrames)
      && (f.Padding? <==> ctx.layout.dataFrames <= i < ctx.layout.bucketFrames)
      && (f.End? <==> i == ctx.layout.bucketFrames)
    ensures |Received(ctx, body).value| == ctx.layout.ciphertextLen
  {
    GoodBefore(ctx, body, ctx.layout.bucketFrames + 1, i);
    PayloadsLength(ctx, body, ctx.layout.bucketFrames + 1);
  }

  // ---- The stream of a blob -----------------------------------------------

  /** Random filler bytes: so many for the i-th frame. */
  type Filler = (nat, nat) -> seq<Byte>

  ghost predicate Fills(filler: Filler) {
    forall i: nat, k: nat :: |filler(i, k)| == k
  }

  function FrameOf(l: Layout, blob: seq<Byte>, i: nat): (f: Frame)
    requires Legal(l) && |blob| == l.ciphertextLen && i <= l.bucketFrames
    ensures WellFormed(f) && Fitting(l, i, f)
  {
    if i < l.dataFrames then Data(blob[i * PAYLOAD_BYTES..Min((i + 1) * PAYLOAD_BYTES, |blob|)])
    else if i < l.bucketFrames then Padding
    else End
  }

  function RecordAt(ctx: Context, blob: seq<Byte>, filler: Filler, i: nat): seq<Byte>
    requires Legal(ctx.layout) && |blob| == ctx.layout.ciphertextLen && i <= ctx.layout.bucketFrames && Fills(filler)
  {
    var f := FrameOf(ctx.layout, blob, i);
    ctx.codec.encode(i, f, filler(i, PAYLOAD_BYTES - |PayloadOf(f)|))
  }

  ghost predicate Usable(ctx: Context) {
    Legal(ctx.layout) && Invertible(ctx.codec)
  }

  /** The concatenation of the first n chunks. */
  function Joined(chunks: seq<seq<Byte>>, n: nat): seq<Byte>
    requires n <= |chunks|
  {
    if n == 0 then [] else Joined(chunks, n - 1) + chunks[n - 1]
  }

  function Concat(chunks: seq<seq<Byte>>): seq<Byte> {
    Joined(chunks, |chunks|)
  }

  lemma {:induction false} JoinedSlice(chunks: seq<seq<Byte>>, i: nat, n: nat)
    requires i < n <= |chunks|
    ensures |Joined(chunks, i)| + |chunks[i]| == |Joined(chunks, i + 1)| <= |Joined(chunks, n)|
    ensures Joined(chunks, n)[|Joined(chunks, i)|..|Joined(chunks, i + 1)|] == chunks[i]
  {
    if i + 1 < n {
      JoinedSlice(chunks, i, n - 1);
      assert Joined(chunks, n)[..|Joined(chunks, n - 1)|] == Joined(chunks, n - 1);
    }
  }

  lemma {:induction false} JoinedLength(records: seq<seq<Byte>>, n: nat)
    requires n <= |records| && forall i :: 0 <= i < |records| ==> |records[i]| == FRAME_BYTES
    ensures |Joined(records, n)| == n * FRAME_BYTES
  {
    if n > 0 { JoinedLength(records, n - 1); }
  }

  /** These records are the stream of this blob. */
  ghost predicate Streams(ctx: Context, blob: seq<Byte>, filler: Filler, records: seq<seq<Byte>>)
    requires Legal(ctx.layout) && |blob| == ctx.layout.ciphertextLen && Fills(filler)
  {
    && |records| == ctx.layout.bucketFrames + 1
    && forall i :: 0 <= i < |records| ==> records[i] == RecordAt(ctx, blob, filler, i)
  }

  lemma StreamSlice(ctx: Context, blob: seq<Byte>, filler: Filler, records: seq<seq<Byte>>, i: nat)
    requires Usable(ctx) && |blob| == ctx.layout.ciphertextLen && Fills(filler)
    requires Streams(ctx, blob, filler, records) && i < |records|
    ensures |Concat(records)| == StreamBytes(ctx.layout) && (i + 1) * FRAME_BYTES <= |Concat(records)|
    ensures ctx.codec.decode(i, Slice(Concat(records), i)) == Some(FrameOf(ctx.layout, blob, i))
  {
    forall j | 0 <= j < |records| ensures |records[j]| == FRAME_BYTES {
      RecordLength(ctx, blob, filler, j);
    }
    JoinedLength(records, i);
    JoinedLength(records, i + 1);
    JoinedLength(records, |records|);
    JoinedSlice(records, i, |records|);
    RecordLength(ctx, blob, filler, i);
  }

  lemma RecordLength(ctx: Context, blob: seq<Byte>, filler: Filler, i: nat)
    requires Usable(ctx) && |blob| == ctx.layout.ciphertextLen && i <= ctx.layout.bucketFrames && Fills(filler)
    ensures |RecordAt(ctx, blob, filler, i)| == FRAME_BYTES
    ensures ctx.codec.decode(i, RecordAt(ctx, blob, filler, i)) == Some(FrameOf(ctx.layout, blob, i))
  {
    var f := FrameOf(ctx.layout, blob, i);
    assert InvertsOne(ctx.codec, i, f, filler(i, PAYLOAD_BYTES - |PayloadOf(f)|));
  }

  lemma {:induction false} StreamPrefix(ctx: Context, blob: seq<Byte>, filler: Filler, records: seq<seq<Byte>>, n: nat)
    requires Usable(ctx) && |blob| == ctx.layout.ciphertextLen && Fills(filler)
    requires Streams(ctx, blob, filler, records) && n <= |records|
    ensures n * FRAME_BYTES <= |Concat(records)| && GoodUpTo(ctx, Concat(records), n)
    ensures PayloadsUpTo(ctx, Concat(records), n) == blob[..Min(n * PAYLOAD_BYTES, |blob|)]
  {
    if n > 0 {
      StreamPrefix(ctx, blob, filler, records, n - 1);
      StreamSlice(ctx, blob, filler, records, n - 1);
      var f := FrameOf(ctx.layout, blob, n - 1);
      assert blob[..Min((n - 1) * PAYLOAD_BYTES, |blob|)] + PayloadOf(f) == blob[..Min(n * PAYLOAD_BYTES, |blob|)];
    }
  }

  /** The stream of a blob reads back as the blob, byte for byte. */
  lemma StreamRoundTrip(ctx: Context, blob: seq<Byte>, filler: Filler, records: seq<seq<Byte>>)
    requires Usable(ctx) && |blob| == ctx.layout.ciphertextLen && Fills(filler)
    requires Streams(ctx, blob, filler, records)
    ensures Received(ctx, Concat(records)) == Some(blob)
  {
    StreamSlice(ctx, blob, filler, records, 0);
    StreamPrefix(ctx, blob, filler, records, |records|);
    assert blob[..|blob|] == blob;
  }
}
