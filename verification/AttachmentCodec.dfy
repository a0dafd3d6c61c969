/** The codec of attachment actions and results. */
module AttachmentCodec {
  import opened Basics
  import opened Bytes
  import opened Fields
  import opened MessageCodec
  import StreamFrames

  const MAX_IDENTIFIER_BYTES: nat := 128
  const MAX_TTL_SEC: nat := 30 * 24 * 60 * 60

  const Plain := Envelope(4096, true)

  predicate IdentifierByte(b: Byte) {
    48 <= b <= 57 || 65 <= b <= 90 || 97 <= b <= 122 || b == 95 || b == 45
  }

  predicate IdentifierBytes(s: seq<Byte>) {
    forall i :: 0 <= i < |s| ==> IdentifierByte(s[i])
  }

  predicate ValidIdentifier(s: seq<Byte>) {
    0 < |s| <= MAX_IDENTIFIER_BYTES && IdentifierBytes(s)
  }

  datatype MediaType = Image | Video | File

  function MediaByte(m: MediaType): nat {
    match m case Image => 1 case Video => 2 case File => 3
  }

  function MediaOf(n: nat): MediaType {
    if n == 1 then Image else if n == 2 then Video else File
  }

  datatype Action =
    | BeginUpload(chat: seq<Byte>, message: seq<Byte>, media: MediaType, cipherVersion: nat, ciphertextLen: nat,
                  sha256: seq<Byte>, oneTime: bool, deleteAfter: bool, ttl: nat)
    | BeginDownload(attachment: seq<Byte>)
    | CompleteDownload(attachment: seq<Byte>, claim: Option<seq<Byte>>)
    | ReleaseDownload(attachment: seq<Byte>, claim: Option<seq<Byte>>)
    | DeleteAttachment(attachment: seq<Byte>)

  datatype Result =
    | Failure
    | Success
    | UploadAccepted(attachment: seq<Byte>)
    | DownloadAccepted(claim: Option<seq<Byte>>, ciphertextLen: nat, sha256: seq<Byte>,
                       dataFrames: nat, bucketFrames: nat)

  predicate ValidDigest(d: seq<Byte>) {
    |d| == 32 && d != Zeros(32)
  }

  predicate ValidClaim(claim: Option<seq<Byte>>) {
    claim.Some? ==> ValidId(claim.value)
  }

  /** What the encoder accepts. */
  predicate ValidAction(a: Action) {
    match a
    case BeginUpload(chat, message, _, version, len, sha, _, _, ttl) =>
      ValidIdentifier(chat) && ValidIdentifier(message) && 0 < version < 256 && ValidDigest(sha)
      && ttl <= MAX_TTL_SEC && StreamFrames.DataFrameCount(len).Some?
    case BeginDownload(id) => ValidId(id)
    case CompleteDownload(id, claim) => ValidId(id) && ValidClaim(claim)
    case ReleaseDownload(id, claim) => ValidId(id) && ValidClaim(claim)
    case DeleteAttachment(id) => ValidId(id)
  }

  predicate ValidResult(r: Result) {
    match r
    case Failure => true
    case Success => true
    case UploadAccepted(id) => ValidId(id)
    case DownloadAccepted(claim, len, sha, data, bucket) =>
      && ValidClaim(claim) && ValidDigest(sha)
      && StreamFrames.DataFrameCount(len) == Some(data) && StreamFrames.BucketFrameCount(data) == Some(bucket)
  }

  const Id := Raw(16, true)
  const Identifier := Text(2, MAX_IDENTIFIER_BYTES, IdentifierBytes)
  const CiphertextLen := Number(8, 1, StreamFrames.MAX_CIPHERTEXT_BYTES)

  // ---- Actions ------------------------------------------------------------

  function ActionKind(a: Action): Byte {
    match a
    case BeginUpload(_, _, _, _, _, _, _, _, _) => 1
    case BeginDownload(_) => 2
    case CompleteDownload(_, _) => 3
    case ReleaseDownload(_, _) => 4
    case DeleteAttachment(_) => 5
  }

  function ActionFlags(a: Action): Byte {
    if a.BeginUpload? then (if a.oneTime then 1 else 0) + (if a.deleteAfter then 2 else 0) else 0
  }

  function ActionFields(kind: Byte, flags: Byte): Option<seq<Field>> {
    if kind == 1 && flags < 4 then
      Some([Identifier, Identifier, Number(1, 1, 3), Number(1, 1, 255), Number(2, 0, 0), CiphertextLen, Raw(32, true),
            Number(4, 0, MAX_TTL_SEC)])
    else if flags != 0 then None
    else if kind == 2 || kind == 5 then Some([Id])
    else if kind == 3 || kind == 4 then Some([Id, OptionalId])
    else None
  }

  function ActionValues(a: Action): seq<Value> {
    match a
    case BeginUpload(chat, message, media, version, len, sha, _, _, ttl) =>
      [Octets(chat), Octets(message), Num(MediaByte(media)), Num(version), Num(0), Num(len), Octets(sha), Num(ttl)]
    case BeginDownload(id) => [Octets(id)]
    case CompleteDownload(id, claim) => [Octets(id), Maybe(claim)]
    case ReleaseDownload(id, claim) => [Octets(id), Maybe(claim)]
    case DeleteAttachment(id) => [Octets(id)]
  }

  /** The action that these values of a well-formed message stand for. */
  function ActionOf(kind: Byte, flags: Byte, vs: seq<Value>): Action
    requires ActionFields(kind, flags).Some? && FitAll(ActionFields(kind, flags).value, vs)
  {
    var fs := ActionFields(kind, flags).value;
    assert Fit(fs[0], vs[0]);
    if kind == 1 then
      assert Fit(fs[1], vs[1]) && Fit(fs[2], vs[2]) && Fit(fs[3], vs[3])
          && Fit(fs[5], vs[5]) && Fit(fs[6], vs[6]) && Fit(fs[7], vs[7]);
      BeginUpload(vs[0].octets, vs[1].octets, MediaOf(vs[2].n), vs[3].n, vs[5].n, vs[6].octets,
                  flags % 2 == 1, flags >= 2, vs[7].n)
    else if kind == 2 then BeginDownload(vs[0].octets)
    else if kind == 5 then DeleteAttachment(vs[0].octets)
    else
      assert Fit(fs[1], vs[1]);
      if kind == 3 then CompleteDownload(vs[0].octets, vs[1].id) else ReleaseDownload(vs[0].octets, vs[1].id)
  }

  function ReadAction(kind: Byte, flags: Byte, vs: seq<Value>): Option<Action> {
    var fs := ActionFields(kind, flags);
    if fs.Some? && FitAll(fs.value, vs) then Some(ActionOf(kind, flags, vs)) else None
  }

  /** `encode_attachment_action` and `decode_attachment_action` */
  const Actions: Codec<Action> :=
    Codec(Plain, ValidAction, ActionKind, ActionFlags, ActionValues, ActionFields, ReadAction)

  lemma ActionWrites(a: Action)
    requires ValidAction(a)
    ensures Writes(Actions, a)
  {
    Widths();
  }

  lemma ActionReads(kind: Byte, flags: Byte, vs: seq<Value>)
    ensures Reads(Actions, kind, flags, vs)
  {
    var fs := ActionFields(kind, flags);
    if fs.Some? && FitAll(fs.value, vs) {
      assert Fit(fs.value[0], vs[0]);
      if kind == 1 {
        assert Fit(fs.value[1], vs[1]) && Fit(fs.value[2], vs[2]) && Fit(fs.value[3], vs[3]) && Fit(fs.value[4], vs[4]);
        assert Fit(fs.value[5], vs[5]) && Fit(fs.value[6], vs[6]) && Fit(fs.value[7], vs[7]);
      } else if kind == 3 || kind == 4 {
        assert Fit(fs.value[1], vs[1]);
      }
    }
  }

  /** Attachment actions: taking apart and reading are inverse on valid actions. */
  lemma ActionsCoherent()
    ensures Coherent(Actions)
  {
    forall a | Actions.valid(a) ensures Writes(Actions, a) { ActionWrites(a); }
    forall kind, flags, vs ensures Reads(Actions, kind, flags, vs) { ActionReads(kind, flags, vs); }
  }

  /** Every valid action has an encoding: its payload always leaves room for the header. */
  lemma ActionEncodable(a: Action)
    requires ValidAction(a)
    ensures Coherent(Actions) && Sealable(Plain, MessageOf(Actions, a))
  {
    ActionsCoherent();
    ActionWrites(a);
    var fs, vs := ActionFields(ActionKind(a), ActionFlags(a)).value, ActionValues(a);
    PutAllBound(fs, vs, |fs|);
    assert fs[..|fs|] == fs && vs[..|fs|] == vs;
  }

  lemma ActionRoundTrip(a: Action, padding: seq<Byte>)
    ensures Coherent(Actions)
    ensures Encode(Actions, a, padding).Some? ==> Decode(Actions, Encode(Actions, a, padding).value) == Some(a)
  {
    ActionsCoherent();
    if Encode(Actions, a, padding).Some? { RoundTrip(Actions, a, padding); }
  }

  // ---- Results ------------------------------------------------------------

  function ResultKind(r: Result): Byte {
    match r
    case Failure => 0
    case Success => 1
    case UploadAccepted(_) => 2
    case DownloadAccepted(_, _, _, _, _) => 3
  }

  function ResultFlags(r: Result): Byte {
    if r.DownloadAccepted? && r.claim.Some? then 1 else 0
  }

  const Counts := [CiphertextLen, Raw(32, true), Number(2, 0, 0xFFFF), Number(2, 0, 0xFFFF)]

  function ResultFields(kind: Byte, flags: Byte): Option<seq<Field>> {
    if kind == 3 && flags == 1 then Some([Id] + Counts)
    else if flags != 0 then None
    else if kind == 0 || kind == 1 then Some([])
    else if kind == 2 then Some([Id])
    else if kind == 3 then Some(Counts)
    else None
  }

  function ResultValues(r: Result): seq<Value> {
    match r
    case Failure => []
    case Success => []
    case UploadAccepted(id) => [Octets(id)]
    case DownloadAccepted(claim, len, sha, data, bucket) =>
      (if claim.Some? then [Octets(claim.value)] else []) + [Num(len), Octets(sha), Num(data), Num(bucket)]
  }

  function ResultOf(kind: Byte, flags: Byte, vs: seq<Value>): Result
    requires ResultFields(kind, flags).Some? && FitAll(ResultFields(kind, flags).value, vs)
  {
    var fs := ResultFields(kind, flags).value;
    if kind == 0 then Failure
    else if kind == 1 then Success
    else
      assert Fit(fs[0], vs[0]);
      if kind == 2 then UploadAccepted(vs[0].octets)
      else
        var k: nat := flags;
        assert Fit(fs[k], vs[k]) && Fit(fs[k + 1], vs[k + 1]) && Fit(fs[k + 2], vs[k + 2]) && Fit(fs[k + 3], vs[k + 3]);
        DownloadAccepted(if flags == 1 then Some(vs[0].octets) else None,
                         vs[k].n, vs[k + 1].octets, vs[k + 2].n, vs[k + 3].n)
  }

  /** The frame counts of a download have to be those of its length. */
  function ReadResult(kind: Byte, flags: Byte, vs: seq<Value>): Option<Result> {
    var fs := ResultFields(kind, flags);
    if fs.None? || !FitAll(fs.value, vs) then None
    else
      var r := ResultOf(kind, flags, vs);
      if ValidResult(r) then Some(r) else None
  }

  /** `encode_attachment_result` and `decode_attachment_result` */
  const Results: Codec<Result> :=
    Codec(Plain, ValidResult, ResultKind, ResultFlags, ResultValues, ResultFields, ReadResult)

  lemma ResultWrites(r: Result)
    requires ValidResult(r)
    ensures Writes(Results, r)
  {
    Widths();
  }

  lemma ResultReads(kind: Byte, flags: Byte, vs: seq<Value>)
    ensures Reads(Results, kind, flags, vs)
  {
    var fs := ResultFields(kind, flags);
    if fs.Some? && FitAll(fs.value, vs) {
      if kind >= 2 { assert Fit(fs.value[0], vs[0]); }
      if kind == 3 {
        var k: nat := flags;
        assert Fit(fs.value[k], vs[k]) && Fit(fs.value[k + 1], vs[k + 1]);
        assert Fit(fs.value[k + 2], vs[k + 2]) && Fit(fs.value[k + 3], vs[k + 3]);
      }
    }
  }

  /** Attachment results: taking apart and reading are inverse on valid results. */
  lemma ResultsCoherent()
    ensures Coherent(Results)
  {
    forall r | Results.valid(r) ensures Writes(Results, r) { ResultWrites(r); }
    forall kind, flags, vs ensures Reads(Results, kind, flags, vs) { ResultReads(kind, flags, vs); }
  }

  lemma ResultRoundTrip(r: Result, padding: seq<Byte>)
    ensures Coherent(Results)
    ensures Encode(Results, r, padding).Some? ==> Decode(Results, Encode(Results, r, padding).value) == Some(r)
  {
    ResultsCoherent();
    if Encode(Results, r, padding).Some? { RoundTrip(Results, r, padding); }
  }
}
