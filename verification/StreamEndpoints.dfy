/** Sealer and opener objects, the download loop and the upload loop. */
module StreamEndpoints {
  import opened Basics
  import opened Bytes
  import opened StreamFrames
  import opened AttachmentStream

  class Sealer {
    const ctx: Context
    var nextCounter: nat
    var dataFrames: nat
    var paddingFrames: nat
    var bytesSeen: nat
    var ended: bool

    function View(): Progress
      reads this
    {
      Progress(nextCounter, dataFrames, paddingFrames, bytesSeen, ended)
    }

    constructor (ctx: Context)
      ensures this.ctx == ctx && View() == Initial
    {
      this.ctx := ctx;
      nextCounter, dataFrames, paddingFrames, bytesSeen, ended := 0, 0, 0, 0, false;
    }

    /** `seal_data`; the filler is what is drawn for a payload that fits a frame. */
    method SealData(payload: seq<Byte>, filler: seq<Byte>) returns (record: Option<seq<Byte>>)
      requires WellFormed(Data(payload)) ==> Fillable(Data(payload), filler)
      modifies this
      ensures Sealed(old(View()), View(), Data(payload), filler, record)
    {
      if ended || paddingFrames != 0 { return None; }
      var expected := ExpectedLen(ctx.layout, dataFrames);
      if expected != Some(|payload|) { return None; }
      record := Seal(Data(payload), filler);
      if record.None? { return; }
      dataFrames := dataFrames + 1;
      bytesSeen := bytesSeen + |payload|;
    }

    /** `seal_padding` */
    method SealPadding(filler: seq<Byte>) returns (record: Option<seq<Byte>>)
      requires |filler| == PAYLOAD_BYTES
      modifies this
      ensures Sealed(old(View()), View(), Padding, filler, record)
    {
      if ended || dataFrames != ctx.layout.dataFrames || dataFrames + paddingFrames >= ctx.layout.bucketFrames {
        return None;
      }
      record := Seal(Padding, filler);
      if record.None? { return; }
      paddingFrames := paddingFrames + 1;
    }

    /** `seal_end` */
    method SealEnd(filler: seq<Byte>) returns (record: Option<seq<Byte>>)
      requires |filler| == PAYLOAD_BYTES
      modifies this
      ensures Sealed(old(View()), View(), End, filler, record)
    {
      if ended || bytesSeen != ctx.layout.ciphertextLen || dataFrames + paddingFrames != ctx.layout.bucketFrames {
        return None;
      }
      record := Seal(End, filler);
      if record.None? { return; }
      ended := true;
    }

    method Seal(f: Frame, filler: seq<Byte>) returns (record: Option<seq<Byte>>)
      requires WellFormed(f) ==> Fillable(f, filler)
      modifies this`nextCounter
      ensures if old(nextCounter) == U64_MAX || !WellFormed(f) then record.None? && nextCounter == old(nextCounter)
              else record == Some(ctx.codec.encode(old(nextCounter), f, filler)) && nextCounter == old(nextCounter) + 1
    {
      if nextCounter == U64_MAX || !WellFormed(f) { return None; }
      record := Some(ctx.codec.encode(nextCounter, f, filler));
      nextCounter := nextCounter + 1;
    }

    /** A frame is sealed exactly when it fits and the state advances by it; otherwise nothing changes. */
    ghost predicate Sealed(before: Progress, after: Progress, f: Frame, filler: seq<Byte>, record: Option<seq<Byte>>) {
      var advanced := Advanced(ctx.layout, before, f);
      if advanced.None? || !WellFormed(f) then record.None? && after == before
      else after == advanced.value && record == Some(ctx.codec.encode(before.next, f, filler))
    }
  }

  /** The records sent so far are the beginning of the blob's stream. */
  ghost predicate SentUpTo(ctx: Context, blob: seq<Byte>, filler: Filler, records: seq<seq<Byte>>, n: nat)
    requires Legal(ctx.layout) && |blob| == ctx.layout.ciphertextLen && Fills(filler)
  {
    && n <= ctx.layout.bucketFrames + 1 && |records| == n
    && forall i :: 0 <= i < n ==> records[i] == RecordAt(ctx, blob, filler, i)
  }

  /** One frame of the download loop; the sealer never refuses it. */
  method SendFrame(sealer: Sealer, blob: seq<Byte>, filler: Filler, sent: seq<seq<Byte>>, n: nat)
      returns (records: seq<seq<Byte>>)
    requires Legal(sealer.ctx.layout) && |blob| == sealer.ctx.layout.ciphertextLen && Fills(filler)
    requires n <= sealer.ctx.layout.bucketFrames && sealer.View() == ProgressAt(sealer.ctx.layout, n)
    requires SentUpTo(sealer.ctx, blob, filler, sent, n)
    modifies sealer
    ensures sealer.View() == ProgressAt(sealer.ctx.layout, n + 1)
    ensures SentUpTo(sealer.ctx, blob, filler, records, n + 1)
  {
    var l := sealer.ctx.layout;
    var f := FrameOf(l, blob, n);
    AcceptsExactly(l, n, f);
    var pad := filler(n, PAYLOAD_BYTES - |PayloadOf(f)|);
    var record;
    match f {
      case Data(payload) => record := sealer.SealData(payload, pad);
      case Padding => record := sealer.SealPadding(pad);
      case End => record := sealer.SealEnd(pad);
    }
    records := sent + [record.value];
  }

  /** `download_response`: the data frames, the padding up to the bucket, the end frame. */
  method Download(sealer: Sealer, blob: seq<Byte>, filler: Filler) returns (records: seq<seq<Byte>>)
    requires Legal(sealer.ctx.layout) && |blob| == sealer.ctx.layout.ciphertextLen && Fills(filler)
    requires sealer.View() == Initial
    modifies sealer
    ensures Streams(sealer.ctx, blob, filler, records) && sealer.View().ended
  {
    var l := sealer.ctx.layout;
    records := [];
    var n := 0;
    while n < l.dataFrames
      invariant 0 <= n <= l.dataFrames && sealer.View() == ProgressAt(l, n)
      invariant SentUpTo(sealer.ctx, blob, filler, records, n)
    {
      records := SendFrame(sealer, blob, filler, records, n);
      n := n + 1;
    }
    while n < l.bucketFrames
      invariant l.dataFrames <= n <= l.bucketFrames && sealer.View() == ProgressAt(l, n)
      invariant SentUpTo(sealer.ctx, blob, filler, records, n)
    {
      records := SendFrame(sealer, blob, filler, records, n);
      n := n + 1;
    }
    records := SendFrame(sealer, blob, filler, records, n);
  }

  class Opener {
    const ctx: Context
    var nextCounter: nat
    var dataFrames: nat
    var paddingFrames: nat
    var bytesSeen: nat
    var ended: bool

    function View(): Progress
      reads this
    {
      Progress(nextCounter, dataFrames, paddingFrames, bytesSeen, ended)
    }

    constructor (ctx: Context)
      ensures this.ctx == ctx && View() == Initial
    {
      this.ctx := ctx;
      nextCounter, dataFrames, paddingFrames, bytesSeen, ended := 0, 0, 0, 0, false;
    }

    /** `open`: a record that is not the next frame of the language changes nothing. */
    method Open(record: seq<Byte>) returns (frame: Option<Frame>)
      modifies this
      ensures var f := ctx.codec.decode(old(nextCounter), record);
        var next := if f.Some? then Advanced(ctx.layout, old(View()), f.value) else None;
        if next.Some? then frame == f && View() == next.value else frame.None? && View() == old(View())
    {
      if ended || nextCounter == U64_MAX { return None; }
      var f := ctx.codec.decode(nextCounter, record);
      if f.None? { return None; }
      var ok := Accept(f.value);
      if !ok { return None; }
      nextCounter := nextCounter + 1;
      return f;
    }

    /** `accept_frame` */
    method Accept(f: Frame) returns (ok: bool)
      modifies this`dataFrames, this`paddingFrames, this`bytesSeen, this`ended
      ensures var a := Accepted(ctx.layout, old(View()), f);
        ok == a.Some? && View() == if ok then a.value else old(View())
    {
      match f {
        case Data(payload) =>
          if paddingFrames != 0 || ExpectedLen(ctx.layout, dataFrames) != Some(|payload|) { return false; }
          dataFrames := dataFrames + 1;
          bytesSeen := bytesSeen + |payload|;
        case Padding =>
          if dataFrames != ctx.layout.dataFrames || dataFrames + paddingFrames >= ctx.layout.bucketFrames {
            return false;
          }
          paddingFrames := paddingFrames + 1;
        case End =>
          if bytesSeen != ctx.layout.ciphertextLen || dataFrames + paddingFrames != ctx.layout.bucketFrames {
            return false;
          }
          ended := true;
      }
      return true;
    }
  }

  /** The upload loop has read m bytes of the body: k whole frames and the beginning of the next. */
  ghost predicate ReadUpTo(ctx: Context, body: seq<Byte>, m: nat, k: nat, frame: seq<Byte>, ciphertext: seq<Byte>,
                           s: Progress)
  {
    && Legal(ctx.layout) && k <= ctx.layout.bucketFrames + 1
    && k * FRAME_BYTES <= m <= |body| && m - k * FRAME_BYTES < FRAME_BYTES
    && frame == body[k * FRAME_BYTES..m]
    && GoodUpTo(ctx, body, k) && ciphertext == PayloadsUpTo(ctx, body, k)
    && s == ProgressAt(ctx.layout, k)
  }

  /** Whether the k-th frame fits decides both the opener's answer and whether the body can be a stream. */
  lemma FrameDecides(ctx: Context, body: seq<Byte>, k: nat)
    requires Legal(ctx.layout) && k <= ctx.layout.bucketFrames
    requires (k + 1) * FRAME_BYTES <= |body| && GoodUpTo(ctx, body, k)
    ensures var f := ctx.codec.decode(k, Slice(body, k));
      if GoodUpTo(ctx, body, k + 1) then
        f.Some? && Advanced(ctx.layout, ProgressAt(ctx.layout, k), f.value) == Some(ProgressAt(ctx.layout, k + 1))
      else !IsStream(ctx, body) && (f.Some? ==> Advanced(ctx.layout, ProgressAt(ctx.layout, k), f.value).None?)
  {
    var f := ctx.codec.decode(k, Slice(body, k));
    if f.Some? { AcceptsExactly(ctx.layout, k, f.value); }
    if IsStream(ctx, body) { GoodBefore(ctx, body, ctx.layout.bucketFrames + 1, k); }
  }

  /** A complete frame either fits the next place of the stream or the body is no stream. */
  method TakeFrame(opener: Opener, frame: seq<Byte>, ciphertext: seq<Byte>, ghost body: seq<Byte>, ghost k: nat)
      returns (ok: bool, more: seq<Byte>)
    requires Legal(opener.ctx.layout) && k <= opener.ctx.layout.bucketFrames && (k + 1) * FRAME_BYTES <= |body|
    requires frame == Slice(body, k) && GoodUpTo(opener.ctx, body, k) && ciphertext == PayloadsUpTo(opener.ctx, body, k)
    requires opener.View() == ProgressAt(opener.ctx.layout, k)
    modifies opener
    ensures !ok ==> !IsStream(opener.ctx, body)
    ensures ok ==> GoodUpTo(opener.ctx, body, k + 1) && more == PayloadsUpTo(opener.ctx, body, k + 1)
    ensures ok ==> opener.View() == ProgressAt(opener.ctx.layout, k + 1)
  {
    more := ciphertext;
    FrameDecides(opener.ctx, body, k);
    var f := opener.Open(frame);
    if f.None? { return false, more; }
    PayloadsLength(opener.ctx, body, k + 1);
    if f.value.Data? {
      if |ciphertext| + |f.value.payload| > opener.ctx.layout.ciphertextLen { assert false; }
      more := ciphertext + f.value.payload;
    }
    return true, more;
  }

  predicate HoldsChunk(body: seq<Byte>, start: nat, chunk: seq<Byte>) {
    start + |chunk| <= |body| && body[start..start + |chunk|] == chunk
  }

  lemma FrameGrows(body: seq<Byte>, chunk: seq<Byte>, start: nat, offset: nat, take: nat, from: nat)
    requires HoldsChunk(body, start, chunk) && offset + take <= |chunk| && from <= start + offset
    ensures body[from..start + offset] + chunk[offset..offset + take] == body[from..start + offset + take]
  {
    SubSlice(body, start, start + |chunk|, offset, offset + take);
  }

  /** More bytes of the current frame: it goes on, or it is the next slice of the body. */
  lemma PieceRead(ctx: Context, body: seq<Byte>, start: nat, chunk: seq<Byte>, offset: nat, take: nat,
                  k: nat, begun: seq<Byte>, before: seq<Byte>, s: Progress)
    requires ReadUpTo(ctx, body, start + offset, k, begun, before, s) && HoldsChunk(body, start, chunk)
    requires offset + take <= |chunk| && |begun| + take <= FRAME_BYTES
    ensures var frame, m := begun + chunk[offset..offset + take], start + offset + take;
      if |frame| < FRAME_BYTES then ReadUpTo(ctx, body, m, k, frame, before, s)
      else m == (k + 1) * FRAME_BYTES <= |body| && frame == Slice(body, k)
  {
    FrameGrows(body, chunk, start, offset, take, k * FRAME_BYTES);
  }

  lemma FrameTaken(ctx: Context, body: seq<Byte>, k: nat, ciphertext: seq<Byte>, s: Progress)
    requires Legal(ctx.layout) && k <= ctx.layout.bucketFrames + 1 && k * FRAME_BYTES <= |body|
    requires GoodUpTo(ctx, body, k) && ciphertext == PayloadsUpTo(ctx, body, k) && s == ProgressAt(ctx.layout, k)
    ensures ReadUpTo(ctx, body, k * FRAME_BYTES, k, [], ciphertext, s)
  {
  }

  /** Bytes that complete the frame at most. */
  method TakePiece(opener: Opener, chunk: seq<Byte>, offset: nat, take: nat, begun: seq<Byte>, before: seq<Byte>,
                   ghost body: seq<Byte>, ghost start: nat, ghost k0: nat)
      returns (ok: bool, frame: seq<Byte>, ciphertext: seq<Byte>, ghost k: nat)
    requires ReadUpTo(opener.ctx, body, start + offset, k0, begun, before, opener.View())
    requires k0 <= opener.ctx.layout.bucketFrames && HoldsChunk(body, start, chunk)
    requires offset + take <= |chunk| && |begun| + take <= FRAME_BYTES
    modifies opener
    ensures !ok ==> !IsStream(opener.ctx, body)
    ensures ok ==> ReadUpTo(opener.ctx, body, start + offset + take, k, frame, ciphertext, opener.View())
    ensures ok ==> |frame| < FRAME_BYTES
    ensures ok && (opener.ended || k > opener.ctx.layout.bucketFrames) ==>
      start + offset + take >= StreamBytes(opener.ctx.layout)
  {
    PieceRead(opener.ctx, body, start, chunk, offset, take, k0, begun, before, opener.View());
    frame, ciphertext, k := begun + chunk[offset..offset + take], before, k0;
    ok := true;
    if |frame| == FRAME_BYTES {
      ok, ciphertext := TakeFrame(opener, frame, ciphertext, body, k);
      if !ok { return; }
      frame := [];
      k := k + 1;
      FrameTaken(opener.ctx, body, k, ciphertext, opener.View());
    }
    EndIsLast(opener.ctx, body, start + offset + take, k, frame, ciphertext, opener.View());
  }

  /** The end frame is the last one that a body of the expected length has room for. */
  lemma EndIsLast(ctx: Context, body: seq<Byte>, m: nat, k: nat, frame: seq<Byte>, ciphertext: seq<Byte>, s: Progress)
    requires ReadUpTo(ctx, body, m, k, frame, ciphertext, s)
    ensures s.ended <==> k == ctx.layout.bucketFrames + 1
    ensures s.ended ==> m >= StreamBytes(ctx.layout)
  {
  }

  /** The inner loop of the upload: one chunk, cut at the frame boundaries. */
  method TakeChunk(opener: Opener, chunk: seq<Byte>, begun: seq<Byte>, before: seq<Byte>,
                   ghost body: seq<Byte>, ghost start: nat, ghost k0: nat)
      returns (ok: bool, frame: seq<Byte>, ciphertext: seq<Byte>, ghost k: nat)
    requires ReadUpTo(opener.ctx, body, start, k0, begun, before, opener.View())
    requires k0 <= opener.ctx.layout.bucketFrames && |begun| < FRAME_BYTES
    requires HoldsChunk(body, start, chunk) && start + |chunk| <= StreamBytes(opener.ctx.layout)
    modifies opener
    ensures !ok ==> !IsStream(opener.ctx, body)
    ensures ok ==>
      ReadUpTo(opener.ctx, body, start + |chunk|, k, frame, ciphertext, opener.View()) && |frame| < FRAME_BYTES
  {
    frame, ciphertext, k := begun, before, k0;
    var offset := 0;
    while offset < |chunk|
      invariant 0 <= offset <= |chunk| && |frame| < FRAME_BYTES
      invariant ReadUpTo(opener.ctx, body, start + offset, k, frame, ciphertext, opener.View())
      invariant k <= opener.ctx.layout.bucketFrames || offset == |chunk|
    {
      var take := Min(FRAME_BYTES - |frame|, |chunk| - offset);
      ok, frame, ciphertext, k := TakePiece(opener, chunk, offset, take, frame, ciphertext, body, start, k);
      if !ok { return; }
      offset := offset + take;
      if opener.ended && offset != |chunk| { assert false; }
    }
    ok := true;
  }

  /** The last checks of the upload loop. */
  lemma LastChecks(ctx: Context, body: seq<Byte>, k: nat, frame: seq<Byte>, ciphertext: seq<Byte>, s: Progress)
    requires ReadUpTo(ctx, body, |body|, k, frame, ciphertext, s)
    ensures IsStream(ctx, body) <==>
      s.ended && frame == [] && |ciphertext| == ctx.layout.ciphertextLen && |body| == StreamBytes(ctx.layout)
    ensures IsStream(ctx, body) ==> Received(ctx, body) == Some(ciphertext)
  {
    PayloadsLength(ctx, body, k);
  }

  /** One iteration of the outer loop of the upload. */
  method NextChunk(opener: Opener, chunks: seq<seq<Byte>>, c: nat, begun: seq<Byte>, before: seq<Byte>,
                   seen: nat, ghost k0: nat)
      returns (ok: bool, frame: seq<Byte>, ciphertext: seq<Byte>, streamBytes: nat, ghost k: nat)
    requires c < |chunks| && seen == |Joined(chunks, c)| && |begun| < FRAME_BYTES
    requires ReadUpTo(opener.ctx, Concat(chunks), seen, k0, begun, before, opener.View())
    modifies opener
    ensures !ok ==> !IsStream(opener.ctx, Concat(chunks))
    ensures ok ==> streamBytes == |Joined(chunks, c + 1)| && |frame| < FRAME_BYTES
    ensures ok ==> ReadUpTo(opener.ctx, Concat(chunks), streamBytes, k, frame, ciphertext, opener.View())
  {
    ok, frame, ciphertext, streamBytes, k := true, begun, before, seen, k0;
    JoinedSlice(chunks, c, |chunks|);
    var chunk := chunks[c];
    if |chunk| == 0 { return; }
    streamBytes := seen + |chunk|;
    EndIsLast(opener.ctx, Concat(chunks), seen, k0, begun, before, opener.View());
    if streamBytes > StreamBytes(opener.ctx.layout) || opener.ended {
      ok := false;
      return;
    }
    ok, frame, ciphertext, k := TakeChunk(opener, chunk, begun, before, Concat(chunks), seen, k0);
  }

  /**
    `receive_upload_stream` with a fixed epoch and no timeout: for every split
    of the body into chunks the loop returns the payloads if the body is a
    stream, and refuses it otherwise.
   */
  method ReceiveUpload(opener: Opener, chunks: seq<seq<Byte>>) returns (r: Option<seq<Byte>>)
    requires Legal(opener.ctx.layout) && opener.View() == Initial
    modifies opener
    ensures r == Received(opener.ctx, Concat(chunks))
  {
    ghost var body := Concat(chunks);
    var frame, ciphertext, streamBytes, c := [], [], 0, 0;
    ghost var k := 0;
    while c < |chunks|
      invariant 0 <= c <= |chunks| && streamBytes == |Joined(chunks, c)| && |frame| < FRAME_BYTES
      invariant ReadUpTo(opener.ctx, body, streamBytes, k, frame, ciphertext, opener.View())
    {
      var ok;
      ok, frame, ciphertext, streamBytes, k := NextChunk(opener, chunks, c, frame, ciphertext, streamBytes, k);
      if !ok { return None; }
      c := c + 1;
    }
    LastChecks(opener.ctx, body, k, frame, ciphertext, opener.View());
    if !opener.ended || frame != [] || |ciphertext| != opener.ctx.layout.ciphertextLen
       || streamBytes != StreamBytes(opener.ctx.layout)
    {
      return None;
    }
    return Some(ciphertext);
  }
}
