/** The codec of account bootstrap actions and results; texts are the UTF-8 bytes of strings. */
module AccountCodec {
  import opened Basics
  import opened Bytes
  import opened Fields
  import opened MessageCodec

  type Utf8 = seq<Byte> -> bool

  const MAX_FIELD_BYTES: nat := 48 * 1024
  const Plain := Envelope(64 * 1024, false)

  datatype Action =
    | Start(capability: seq<Byte>, registration: seq<Byte>, credential: seq<Byte>)
    | FinishRegistration(handshake: seq<Byte>, upload: seq<Byte>, identity: seq<Byte>, prekey: seq<Byte>,
                         envelope: seq<Byte>, proof: seq<Byte>)
    | FinishLogin(handshake: seq<Byte>, finalization: seq<Byte>)

  datatype Result =
    | Failure
    | LoginStart(handshake: seq<Byte>, response: seq<Byte>, identity: seq<Byte>, prekey: seq<Byte>, envelope: seq<Byte>)
    | RegistrationStart(handshake: seq<Byte>, response: seq<Byte>, challenge: seq<Byte>)
    | RegistrationContinuation(handshake: seq<Byte>, response: seq<Byte>)
    | Session(session: seq<Byte>, created: bool, maxRooms: nat, inactivity: nat, username: seq<Byte>,
              identity: seq<Byte>, prekey: seq<Byte>, envelope: seq<Byte>)

  predicate Any(s: seq<Byte>) {
    true
  }

  const Handshake := Raw(16, true)
  const Secret := Raw(32, true)
  const Blob := Text(4, MAX_FIELD_BYTES, Any)

  function Words(utf8: Utf8): Field {
    Text(4, MAX_FIELD_BYTES, utf8)
  }

  predicate ValidBlob(s: seq<Byte>) {
    0 < |s| <= MAX_FIELD_BYTES
  }

  predicate Nonzero(s: seq<Byte>, width: nat) {
    |s| == width && s != Zeros(width)
  }

  // ---- Actions ------------------------------------------------------------

  predicate ValidAction(utf8: Utf8, a: Action) {
    match a
    case Start(capability, registration, credential) =>
      Nonzero(capability, 32) && ValidBlob(registration) && ValidBlob(credential)
    case FinishRegistration(handshake, upload, identity, prekey, envelope, proof) =>
      Nonzero(handshake, 16) && ValidBlob(upload) && ValidBlob(identity) && ValidBlob(prekey) && utf8(prekey)
      && ValidBlob(envelope) && ValidBlob(proof)
    case FinishLogin(handshake, finalization) => Nonzero(handshake, 16) && ValidBlob(finalization)
  }

  function ActionKind(a: Action): Byte {
    match a
    case Start(_, _, _) => 1
    case FinishRegistration(_, _, _, _, _, _) => 2
    case FinishLogin(_, _) => 3
  }

  function ActionFields(utf8: Utf8, kind: Byte): Option<seq<Field>> {
    if kind == 1 then Some([Secret, Blob, Blob])
    else if kind == 2 then Some([Handshake, Blob, Blob, Words(utf8), Blob, Blob])
    else if kind == 3 then Some([Handshake, Blob])
    else None
  }

  function ActionValues(a: Action): seq<Value> {
    match a
    case Start(capability, registration, credential) => [Octets(capability), Octets(registration), Octets(credential)]
    case FinishRegistration(handshake, upload, identity, prekey, envelope, proof) =>
      [Octets(handshake), Octets(upload), Octets(identity), Octets(prekey), Octets(envelope), Octets(proof)]
    case FinishLogin(handshake, finalization) => [Octets(handshake), Octets(finalization)]
  }

  function ReadAction(utf8: Utf8, kind: Byte, vs: seq<Value>): Option<Action> {
    var fs := ActionFields(utf8, kind);
    if fs.None? || !FitAll(fs.value, vs) || (exists i :: 0 <= i < |vs| && !vs[i].Octets?) then None
    else if kind == 1 then Some(Start(vs[0].octets, vs[1].octets, vs[2].octets))
    else if kind == 2 then
      Some(FinishRegistration(vs[0].octets, vs[1].octets, vs[2].octets, vs[3].octets, vs[4].octets, vs[5].octets))
    else Some(FinishLogin(vs[0].octets, vs[1].octets))
  }

  /** `encode_account_bootstrap_action` and `decode_account_bootstrap_action` */
  function Actions(utf8: Utf8): Codec<Action> {
    Codec(Plain, a => ValidAction(utf8, a), ActionKind, NoFlags, ActionValues,
          (kind: Byte, flags: Byte) => if flags == 0 then ActionFields(utf8, kind) else None,
          (kind: Byte, flags: Byte, vs: seq<Value>) => ReadAction(utf8, kind, vs))
  }

  lemma ActionWrites(utf8: Utf8, a: Action)
    requires ValidAction(utf8, a)
    ensures Writes(Actions(utf8), a)
  {
    Widths();
  }

  lemma ActionReads(utf8: Utf8, kind: Byte, flags: Byte, vs: seq<Value>)
    ensures Reads(Actions(utf8), kind, flags, vs)
  {
    var fs := ActionFields(utf8, kind);
    if flags == 0 && fs.Some? && FitAll(fs.value, vs) {
      assert Fit(fs.value[0], vs[0]) && Fit(fs.value[1], vs[1]);
      if kind == 1 || kind == 2 { assert Fit(fs.value[2], vs[2]); }
      if kind == 2 { assert Fit(fs.value[3], vs[3]) && Fit(fs.value[4], vs[4]) && Fit(fs.value[5], vs[5]); }
    }
  }

  /** Account actions: taking apart and reading are inverse on valid actions. */
  lemma ActionsCoherent(utf8: Utf8)
    ensures Coherent(Actions(utf8))
  {
    var c := Actions(utf8);
    forall a | c.valid(a) ensures Writes(c, a) { ActionWrites(utf8, a); }
    forall kind, flags, vs ensures Reads(c, kind, flags, vs) { ActionReads(utf8, kind, flags, vs); }
  }

  // ---- Results ------------------------------------------------------------

  predicate ValidResult(utf8: Utf8, r: Result) {
    match r
    case Failure => true
    case LoginStart(handshake, response, identity, prekey, envelope) =>
      && Nonzero(handshake, 16) && ValidBlob(response) && ValidBlob(identity)
      && ValidBlob(prekey) && utf8(prekey) && ValidBlob(envelope)
    case RegistrationStart(handshake, response, challenge) =>
      Nonzero(handshake, 16) && ValidBlob(response) && ValidBlob(challenge)
    case RegistrationContinuation(handshake, response) => Nonzero(handshake, 16) && ValidBlob(response)
    case Session(session, _, maxRooms, inactivity, username, identity, prekey, envelope) =>
      && Nonzero(session, 32) && 1 <= maxRooms <= 100 && 60 <= inactivity <= 24 * 60 * 60
      && ValidBlob(username) && utf8(username)
      && ValidBlob(identity) && ValidBlob(prekey) && utf8(prekey) && ValidBlob(envelope)
  }

  function ResultKind(r: Result): Byte {
    match r
    case Failure => 0
    case LoginStart(_, _, _, _, _) => 1
    case RegistrationStart(_, _, _) => 2
    case RegistrationContinuation(_, _) => 3
    case Session(_, _, _, _, _, _, _, _) => 4
  }

  function ResultFields(utf8: Utf8, kind: Byte): Option<seq<Field>> {
    if kind == 0 then Some([])
    else if kind == 1 then Some([Handshake, Blob, Blob, Words(utf8), Blob])
    else if kind == 2 then Some([Handshake, Blob, Blob])
    else if kind == 3 then Some([Handshake, Blob])
    else if kind == 4 then
      Some([Secret, Number(1, 0, 1), Number(4, 1, 100), Number(4, 60, 24 * 60 * 60),
            Words(utf8), Blob, Words(utf8), Blob])
    else None
  }

  function ResultValues(r: Result): seq<Value> {
    match r
    case Failure => []
    case LoginStart(handshake, response, identity, prekey, envelope) =>
      [Octets(handshake), Octets(response), Octets(identity), Octets(prekey), Octets(envelope)]
    case RegistrationStart(handshake, response, challenge) => [Octets(handshake), Octets(response), Octets(challenge)]
    case RegistrationContinuation(handshake, response) => [Octets(handshake), Octets(response)]
    case Session(session, created, maxRooms, inactivity, username, identity, prekey, envelope) =>
      [Octets(session), Num(if created then 1 else 0), Num(maxRooms), Num(inactivity), Octets(username),
       Octets(identity), Octets(prekey), Octets(envelope)]
  }

  predicate SessionShape(vs: seq<Value>) {
    && |vs| == 8 && vs[0].Octets? && vs[1].Num? && vs[2].Num? && vs[3].Num?
    && vs[4].Octets? && vs[5].Octets? && vs[6].Octets? && vs[7].Octets?
  }

  function ReadResult(utf8: Utf8, kind: Byte, vs: seq<Value>): Option<Result> {
    var fs := ResultFields(utf8, kind);
    if fs.None? || !FitAll(fs.value, vs) then None
    else if kind == 0 then Some(Failure)
    else if kind == 4 then
      if SessionShape(vs) then
        Some(Session(vs[0].octets, vs[1].n == 1, vs[2].n, vs[3].n,
                     vs[4].octets, vs[5].octets, vs[6].octets, vs[7].octets))
      else None
    else if exists i :: 0 <= i < |vs| && !vs[i].Octets? then None
    else if kind == 1 then Some(LoginStart(vs[0].octets, vs[1].octets, vs[2].octets, vs[3].octets, vs[4].octets))
    else if kind == 2 then Some(RegistrationStart(vs[0].octets, vs[1].octets, vs[2].octets))
    else Some(RegistrationContinuation(vs[0].octets, vs[1].octets))
  }

  /** `encode_account_bootstrap_result` and `decode_account_bootstrap_result` */
  function Results(utf8: Utf8): Codec<Result> {
    Codec(Plain, r => ValidResult(utf8, r), ResultKind, NoFlags, ResultValues,
          (kind: Byte, flags: Byte) => if flags == 0 then ResultFields(utf8, kind) else None,
          (kind: Byte, flags: Byte, vs: seq<Value>) => ReadResult(utf8, kind, vs))
  }

  lemma ResultWrites(utf8: Utf8, r: Result)
    requires ValidResult(utf8, r)
    ensures Writes(Results(utf8), r)
  {
    Widths();
    assert r.Session? ==> FitAll(ResultFields(utf8, 4).value, ResultValues(r));
  }

  lemma ResultReads(utf8: Utf8, kind: Byte, flags: Byte, vs: seq<Value>)
    ensures Reads(Results(utf8), kind, flags, vs)
  {
    var fs := ResultFields(utf8, kind);
    if flags == 0 && kind > 0 && fs.Some? && FitAll(fs.value, vs) {
      assert Fit(fs.value[0], vs[0]) && Fit(fs.value[1], vs[1]);
      if kind != 3 { assert Fit(fs.value[2], vs[2]); }
      if kind == 1 || kind == 4 { assert Fit(fs.value[3], vs[3]) && Fit(fs.value[4], vs[4]); }
      if kind == 4 { assert Fit(fs.value[5], vs[5]) && Fit(fs.value[6], vs[6]) && Fit(fs.value[7], vs[7]); }
    }
  }

  /** Account results: taking apart and reading are inverse on valid results. */
  lemma ResultsCoherent(utf8: Utf8)
    ensures Coherent(Results(utf8))
  {
    var c := Results(utf8);
    forall r | c.valid(r) ensures Writes(c, r) { ResultWrites(utf8, r); }
    forall kind, flags, vs ensures Reads(c, kind, flags, vs) { ResultReads(utf8, kind, flags, vs); }
  }
}
