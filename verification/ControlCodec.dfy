/** The codec of control actions and results; texts are ASCII bytes. */
module ControlCodec {
  import opened Basics
  import opened Bytes
  import opened Fields
  import opened MessageCodec

  const MAX_PLATFORM_BYTES: nat := 32
  const MAX_VERSION_BYTES: nat := 64
  const MAX_SIGNATURE_BYTES: nat := 256
  const MAX_TICKET_BYTES: nat := 128
  const MAX_TICKET_SEC: nat := 24 * 60 * 60
  const Plain := Envelope(4096, false)

  predicate Ascii(s: seq<Byte>) {
    forall i :: 0 <= i < |s| ==> s[i] < 128
  }

  predicate ValidText(s: seq<Byte>, max: nat) {
    0 < |s| <= max && Ascii(s)
  }

  datatype Action = IssueWsTicket(platform: seq<Byte>, version: seq<Byte>, signature: seq<Byte>) | Logout
  datatype Result = Failure | WsTicket(ticket: seq<Byte>, expiresIn: nat) | LoggedOut

  // ---- Actions ------------------------------------------------------------

  predicate ValidAction(a: Action) {
    a.IssueWsTicket? ==> ValidText(a.platform, MAX_PLATFORM_BYTES) && ValidText(a.version, MAX_VERSION_BYTES)
                         && ValidText(a.signature, MAX_SIGNATURE_BYTES)
  }

  function ActionKind(a: Action): Byte {
    if a.Logout? then 2 else 1
  }

  function ActionFields(kind: Byte, flags: Byte): Option<seq<Field>> {
    if flags != 0 then None
    else if kind == 1 then
      Some([Text(2, MAX_PLATFORM_BYTES, Ascii), Text(2, MAX_VERSION_BYTES, Ascii), Text(2, MAX_SIGNATURE_BYTES, Ascii)])
    else if kind == 2 then Some([])
    else None
  }

  function ActionValues(a: Action): seq<Value> {
    if a.Logout? then [] else [Octets(a.platform), Octets(a.version), Octets(a.signature)]
  }

  function ReadAction(kind: Byte, flags: Byte, vs: seq<Value>): Option<Action> {
    var fs := ActionFields(kind, flags);
    if fs.None? || !FitAll(fs.value, vs) || (exists i :: 0 <= i < |vs| && !vs[i].Octets?) then None
    else if kind == 1 then Some(IssueWsTicket(vs[0].octets, vs[1].octets, vs[2].octets))
    else Some(Logout)
  }

  /** `encode_control_action` and `decode_control_action` */
  const Actions: Codec<Action> := Codec(Plain, ValidAction, ActionKind, NoFlags, ActionValues, ActionFields, ReadAction)

  lemma ActionReads(kind: Byte, flags: Byte, vs: seq<Value>)
    ensures Reads(Actions, kind, flags, vs)
  {
    var fs := ActionFields(kind, flags);
    if fs.Some? && FitAll(fs.value, vs) && kind == 1 {
      assert Fit(fs.value[0], vs[0]) && Fit(fs.value[1], vs[1]) && Fit(fs.value[2], vs[2]);
    }
  }

  /** Control actions: taking apart and reading are inverse on valid actions. */
  lemma ActionsCoherent()
    ensures Coherent(Actions)
  {
    Widths();
    forall a | Actions.valid(a) ensures Writes(Actions, a) { }
    forall kind, flags, vs ensures Reads(Actions, kind, flags, vs) { ActionReads(kind, flags, vs); }
  }

  // ---- Results ------------------------------------------------------------

  predicate ValidResult(r: Result) {
    r.WsTicket? ==> ValidText(r.ticket, MAX_TICKET_BYTES) && 0 < r.expiresIn <= MAX_TICKET_SEC
  }

  function ResultKind(r: Result): Byte {
    match r case Failure => 0 case WsTicket(_, _) => 1 case LoggedOut => 2
  }

  function ResultFields(kind: Byte, flags: Byte): Option<seq<Field>> {
    if flags != 0 then None
    else if kind == 0 || kind == 2 then Some([])
    else if kind == 1 then Some([Text(2, MAX_TICKET_BYTES, Ascii), Number(4, 1, MAX_TICKET_SEC)])
    else None
  }

  function ResultValues(r: Result): seq<Value> {
    if r.WsTicket? then [Octets(r.ticket), Num(r.expiresIn)] else []
  }

  function ReadResult(kind: Byte, flags: Byte, vs: seq<Value>): Option<Result> {
    var fs := ResultFields(kind, flags);
    if fs.None? || !FitAll(fs.value, vs) then None
    else if kind == 0 then Some(Failure)
    else if kind == 2 then Some(LoggedOut)
    else if vs[0].Octets? && vs[1].Num? then Some(WsTicket(vs[0].octets, vs[1].n))
    else None
  }

  /** `encode_control_result` and `decode_control_result` */
  const Results: Codec<Result> := Codec(Plain, ValidResult, ResultKind, NoFlags, ResultValues, ResultFields, ReadResult)

  lemma ResultReads(kind: Byte, flags: Byte, vs: seq<Value>)
    ensures Reads(Results, kind, flags, vs)
  {
    var fs := ResultFields(kind, flags);
    if fs.Some? && FitAll(fs.value, vs) && kind == 1 { assert Fit(fs.value[0], vs[0]) && Fit(fs.value[1], vs[1]); }
  }

  /** Control results: taking apart and reading are inverse on valid results. */
  lemma ResultsCoherent()
    ensures Coherent(Results)
  {
    Widths();
    forall r | Results.valid(r) ensures Writes(Results, r) { }
    forall kind, flags, vs ensures Reads(Results, kind, flags, vs) { ResultReads(kind, flags, vs); }
  }
}
