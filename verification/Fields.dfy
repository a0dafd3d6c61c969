/**
  Payload fields of the transport codecs: how each kind of field is appended
  to a payload and taken from one by a reader.
 */
module Fields {
  import opened Basics
  import opened Bytes

  /** A raw array, a text behind its length, a bounded integer, or an optional id. */
  datatype Field =
    | Raw(width: nat, nonzero: bool)
    | Text(prefix: nat, max: nat, allowed: seq<Byte> -> bool)
    | Number(width: nat, lo: nat, hi: nat)
    | OptionalId

  datatype Value = Octets(octets: seq<Byte>) | Num(n: nat) | Maybe(id: Option<seq<Byte>>)

  function Zeros(width: nat): (z: seq<Byte>)
    ensures |z| == width
  {
    seq(width, _ => 0)
  }

  predicate ValidId(id: seq<Byte>) {
    |id| == 16 && id != Zeros(16)
  }

  /** The value may stand in this field. */
  predicate Fit(f: Field, v: Value) {
    match f
    case Raw(width, nonzero) => v.Octets? && |v.octets| == width && (nonzero ==> v.octets != Zeros(width))
    case Text(prefix, max, allowed) =>
      v.Octets? && 0 < |v.octets| <= max && |v.octets| < Pow256(prefix) && allowed(v.octets)
    case Number(width, lo, hi) => v.Num? && lo <= v.n <= hi && v.n < Pow256(width)
    case OptionalId => v.Maybe? && (v.id.Some? ==> ValidId(v.id.value))
  }

  /** What the encoders append for one field. */
  function Put(f: Field, v: Value): seq<Byte>
    requires Fit(f, v)
  {
    match f
    case Raw(_, _) => v.octets
    case Text(prefix, _, _) => Be(|v.octets|, prefix) + v.octets
    case Number(width, _, _) => Be(v.n, width)
    case OptionalId => if v.id.Some? then [1, 0, 0, 0] + v.id.value else [0, 0, 0, 0]
  }

  datatype Taken = Taken(value: Value, rest: seq<Byte>)

  /** What the reader takes for one field; `None` is any of its errors. */
  function Take(f: Field, s: seq<Byte>): Option<Taken> {
    match f
    case Raw(width, nonzero) =>
      if |s| < width || (nonzero && s[..width] == Zeros(width)) then None
      else Some(Taken(Octets(s[..width]), s[width..]))
    case Text(prefix, max, allowed) =>
      if |s| < prefix then None
      else
        var len := FromBe(s[..prefix]);
        if len == 0 || len > max || |s| < prefix + len || !allowed(s[prefix..prefix + len]) then None
        else Some(Taken(Octets(s[prefix..prefix + len]), s[prefix + len..]))
    case Number(width, lo, hi) =>
      if |s| < width || FromBe(s[..width]) < lo || FromBe(s[..width]) > hi then None
      else Some(Taken(Num(FromBe(s[..width])), s[width..]))
    case OptionalId =>
      if |s| < 4 || s[1..4] != [0, 0, 0] then None
      else if s[0] == 0 then Some(Taken(Maybe(None), s[4..]))
      else if s[0] == 1 && |s| >= 20 && s[4..20] != Zeros(16) then Some(Taken(Maybe(Some(s[4..20])), s[20..]))
      else None
  }

  /** Taking a field undoes putting it, whatever follows. */
  lemma TakePut(f: Field, v: Value, rest: seq<Byte>)
    requires Fit(f, v)
    ensures Take(f, Put(f, v) + rest) == Some(Taken(v, rest))
  {
    var s := Put(f, v) + rest;
    match f
    case Raw(width, _) =>
      assert s[..width] == v.octets && s[width..] == rest;
    case Text(prefix, _, _) =>
      BeRoundTrip(|v.octets|, prefix);
      var len := |v.octets|;
      assert s[..prefix] == Be(len, prefix) && s[prefix..prefix + len] == v.octets && s[prefix + len..] == rest;
    case Number(width, _, _) =>
      BeRoundTrip(v.n, width);
      assert s[..width] == Be(v.n, width) && s[width..] == rest;
    case OptionalId =>
      assert s[1..4] == [0, 0, 0];
      if v.id.Some? {
        assert s[4..20] == v.id.value && s[20..] == rest;
      } else {
        assert s[4..] == rest;
      }
  }

  /** Only what was put can be taken: the bytes of a field are determined by its value. */
  lemma PutTake(f: Field, s: seq<Byte>)
    requires Take(f, s).Some?
    ensures var t := Take(f, s).value; Fit(f, t.value) && s == Put(f, t.value) + t.rest
  {
    match f
    case Raw(width, _) => assert s == s[..width] + s[width..];
    case Text(_, _, _) => PutTakeText(f, s);
    case Number(_, _, _) => PutTakeNumber(f, s);
    case OptionalId => PutTakeOptionalId(s);
  }

  lemma PutTakeText(f: Field, s: seq<Byte>)
    requires f.Text? && Take(f, s).Some?
    ensures var t := Take(f, s).value; Fit(f, t.value) && s == Put(f, t.value) + t.rest
  {
    var head := s[..f.prefix];
    var len := FromBe(head);
    assert |head| == f.prefix;
    FromBeCanonical(head);
    TextParts(s, head, len);
  }

  lemma TextParts(s: seq<Byte>, head: seq<Byte>, len: nat)
    requires |head| + len <= |s| && head == s[..|head|]
    ensures s == head + s[|head|..|head| + len] + s[|head| + len..]
  {
  }

  lemma PutTakeNumber(f: Field, s: seq<Byte>)
    requires f.Number? && Take(f, s).Some?
    ensures var t := Take(f, s).value; Fit(f, t.value) && s == Put(f, t.value) + t.rest
  {
    FromBeCanonical(s[..f.width]);
    assert s == s[..f.width] + s[f.width..];
  }

  lemma PutTakeOptionalId(s: seq<Byte>)
    requires Take(OptionalId, s).Some?
    ensures var t := Take(OptionalId, s).value; Fit(OptionalId, t.value) && s == Put(OptionalId, t.value) + t.rest
  {
    assert s[..4] == [s[0]] + s[1..4];
    if s[0] == 1 { assert s == s[..4] + s[4..20] + s[20..]; } else { assert s == s[..4] + s[4..]; }
  }

  // ---- Whole payloads -----------------------------------------------------

  predicate FitAll(fs: seq<Field>, vs: seq<Value>) {
    |fs| == |vs| && forall i :: 0 <= i < |fs| ==> Fit(fs[i], vs[i])
  }

  function PutAll(fs: seq<Field>, vs: seq<Value>): seq<Byte>
    requires FitAll(fs, vs)
  {
    if fs == [] then [] else Put(fs[0], vs[0]) + PutAll(fs[1..], vs[1..])
  }

  /** All fields in order, and nothing after them. */
  function TakeAll(fs: seq<Field>, s: seq<Byte>): Option<seq<Value>> {
    if fs == [] then (if s == [] then Some([]) else None)
    else
      var t := Take(fs[0], s);
      if t.None? then None
      else
        var more := TakeAll(fs[1..], t.value.rest);
        if more.None? then None else Some([t.value.value] + more.value)
  }

  lemma {:induction false} PutAllSnoc(fs: seq<Field>, vs: seq<Value>, n: nat)
    requires FitAll(fs, vs) && n < |fs|
    ensures FitAll(fs[..n], vs[..n]) && FitAll(fs[..n + 1], vs[..n + 1])
    ensures PutAll(fs[..n + 1], vs[..n + 1]) == PutAll(fs[..n], vs[..n]) + Put(fs[n], vs[n])
  {
    if n > 0 {
      assert FitAll(fs[1..], vs[1..]);
      PutAllSnoc(fs[1..], vs[1..], n - 1);
      assert fs[..n + 1][1..] == fs[1..][..n] && vs[..n + 1][1..] == vs[1..][..n];
      assert fs[..n][1..] == fs[1..][..n - 1] && vs[..n][1..] == vs[1..][..n - 1];
    } else {
      assert fs[..1][1..] == [] && vs[..1][1..] == [];
    }
  }

  /** The encoders append field after field to a growing payload. */
  method AppendFields(fs: seq<Field>, vs: seq<Value>) returns (payload: seq<Byte>)
    requires FitAll(fs, vs)
    ensures payload == PutAll(fs, vs)
  {
    payload := [];
    var i := 0;
    while i < |fs|
      invariant 0 <= i <= |fs| && FitAll(fs[..i], vs[..i]) && payload == PutAll(fs[..i], vs[..i])
    {
      PutAllSnoc(fs, vs, i);
      payload := payload + Put(fs[i], vs[i]);
      i := i + 1;
    }
    assert fs[..|fs|] == fs && vs[..|vs|] == vs;
  }

  /** Payloads of few short fields are short. */
  lemma {:induction false} PutAllBound(fs: seq<Field>, vs: seq<Value>, n: nat)
    requires FitAll(fs, vs) && n <= |fs| && forall i :: 0 <= i < |fs| ==> ShortField(fs[i], vs[i])
    ensures FitAll(fs[..n], vs[..n]) && |PutAll(fs[..n], vs[..n])| <= 200 * n
  {
    if n > 0 {
      PutAllBound(fs, vs, n - 1);
      PutAllSnoc(fs, vs, n - 1);
      assert ShortField(fs[n - 1], vs[n - 1]);
    }
  }

  predicate ShortField(f: Field, v: Value) {
    Fit(f, v) && |Put(f, v)| <= 200
  }

  lemma {:induction false} TakeAllPutAll(fs: seq<Field>, vs: seq<Value>)
    requires FitAll(fs, vs)
    ensures TakeAll(fs, PutAll(fs, vs)) == Some(vs)
  {
    if fs != [] {
      TakePut(fs[0], vs[0], PutAll(fs[1..], vs[1..]));
      TakeAllPutAll(fs[1..], vs[1..]);
      assert vs == [vs[0]] + vs[1..];
    }
  }

  lemma {:induction false} PutAllTakeAll(fs: seq<Field>, s: seq<Byte>)
    requires TakeAll(fs, s).Some?
    ensures FitAll(fs, TakeAll(fs, s).value) && s == PutAll(fs, TakeAll(fs, s).value)
  {
    if fs != [] {
      var t := Take(fs[0], s).value;
      PutTake(fs[0], s);
      PutAllTakeAll(fs[1..], t.rest);
      var vs := TakeAll(fs, s).value;
      assert vs[1..] == TakeAll(fs[1..], t.rest).value;
    }
  }

  // ---- The reader ---------------------------------------------------------

  class Reader {
    const input: seq<Byte>
    var offset: nat

    ghost predicate Valid()
      reads this
    {
      offset <= |input|
    }

    constructor (input: seq<Byte>)
      ensures this.input == input && offset == 0
    {
      this.input := input;
      offset := 0;
    }

    /** `take`: the next bytes, or an error that leaves the offset alone. */
    method TakeBytes(length: nat) returns (value: Option<seq<Byte>>)
      requires Valid()
      modifies this
      ensures Valid()
      ensures if length <= |input| - old(offset)
              then value == Some(input[old(offset)..][..length]) && offset == old(offset) + length
              else value.None? && offset == old(offset)
    {
      if offset + length > |input| { return None; }
      assert input[offset..][..length] == input[offset..offset + length];
      value := Some(input[offset..offset + length]);
      offset := offset + length;
    }

    /** One field; after an error the reader is not used again. */
    method TakeField(f: Field) returns (value: Option<Value>)
      requires Valid()
      modifies this
      ensures Valid()
      ensures var t := Take(f, input[old(offset)..]);
        if t.Some? then value == Some(t.value.value) && input[offset..] == t.value.rest else value.None?
    {
      ghost var s := input[offset..];
      match f {
        case Raw(width, nonzero) =>
          var b := TakeBytes(width);
          if b.None? || (nonzero && b.value == Zeros(width)) { return None; }
          return Some(Octets(b.value));
        case Text(prefix, max, allowed) =>
          value := TakeText(prefix, max, allowed);
        case Number(width, lo, hi) =>
          var b := TakeBytes(width);
          if b.None? || FromBe(b.value) < lo || FromBe(b.value) > hi { return None; }
          return Some(Num(FromBe(b.value)));
        case OptionalId =>
          value := TakeOptionalId();
      }
    }

    method TakeText(prefix: nat, max: nat, allowed: seq<Byte> -> bool) returns (value: Option<Value>)
      requires Valid()
      modifies this
      ensures Valid()
      ensures var t := Take(Text(prefix, max, allowed), input[old(offset)..]);
        if t.Some? then value == Some(t.value.value) && input[offset..] == t.value.rest else value.None?
    {
      ghost var s := input[offset..];
      var b := TakeBytes(prefix);
      if b.None? { return None; }
      var len := FromBe(b.value);
      if len == 0 || len > max { return None; }
      assert input[offset..] == s[prefix..];
      var text := TakeBytes(len);
      if text.None? { return None; }
      assert s[prefix..][..len] == s[prefix..prefix + len] && input[offset..] == s[prefix + len..];
      if !allowed(text.value) { return None; }
      return Some(Octets(text.value));
    }

    method TakeOptionalId() returns (value: Option<Value>)
      requires Valid()
      modifies this
      ensures Valid()
      ensures var t := Take(OptionalId, input[old(offset)..]);
        if t.Some? then value == Some(t.value.value) && input[offset..] == t.value.rest else value.None?
    {
      ghost var s := input[offset..];
      var present := TakeBytes(1);
      if present.None? { return None; }
      assert input[offset..] == s[1..];
      var reserved := TakeBytes(3);
      if reserved.None? || reserved.value != [0, 0, 0] { return None; }
      assert s[1..][..3] == s[1..4] && input[offset..] == s[4..];
      if present.value[0] == 0 { return Some(Maybe(None)); }
      if present.value[0] != 1 { return None; }
      var id := TakeBytes(16);
      if id.None? || id.value == Zeros(16) { return None; }
      assert s[4..][..16] == s[4..20] && input[offset..] == s[20..];
      return Some(Maybe(Some(id.value)));
    }

    /** All fields of a message and `finish`. */
    method TakeMessage(fs: seq<Field>) returns (values: Option<seq<Value>>)
      requires Valid()
      modifies this
      ensures values == TakeAll(fs, input[old(offset)..])
    {
      var vs: seq<Value> := [];
      var i := 0;
      assert fs[0..] == fs;
      PrefixedNothing(TakeAll(fs, input[offset..]));
      while i < |fs|
        invariant 0 <= i <= |fs| && Valid()
        invariant TakeAll(fs, input[old(offset)..]) == Prefixed(vs, TakeAll(fs[i..], input[offset..]))
      {
        assert fs[i..][1..] == fs[i + 1..];
        var v := TakeField(fs[i]);
        if v.None? { return None; }
        PrefixedMore(vs, v.value, TakeAll(fs[i + 1..], input[offset..]));
        vs := vs + [v.value];
        i := i + 1;
      }
      if offset != |input| { return None; }
      assert vs + [] == vs;
      return Some(vs);
    }
  }

  /** Values already read in front of what is still to come. */
  function Prefixed(vs: seq<Value>, more: Option<seq<Value>>): Option<seq<Value>> {
    if more.None? then None else Some(vs + more.value)
  }

  lemma PrefixedNothing(more: Option<seq<Value>>)
    ensures Prefixed([], more) == more
  {
    if more.Some? { assert [] + more.value == more.value; }
  }

  lemma PrefixedMore(vs: seq<Value>, v: Value, more: Option<seq<Value>>)
    ensures Prefixed(vs, Prefixed([v], more)) == Prefixed(vs + [v], more)
  {
    if more.Some? { assert vs + ([v] + more.value) == (vs + [v]) + more.value; }
  }

  // ---- Envelopes ----------------------------------------------------------

  /** The fixed-size plaintexts: `total` bytes, a header with or without flags, random padding. */
  datatype Envelope = Envelope(total: nat, flagged: bool)

  datatype Message = Message(kind: Byte, flags: Byte, payload: seq<Byte>)

  function HeaderBytes(e: Envelope): nat {
    if e.flagged then 8 else 6
  }

  predicate Sealable(e: Envelope, m: Message) {
    && HeaderBytes(e) + |m.payload| <= e.total && |m.payload| < (if e.flagged then 0x1_0000 else 0x1_0000_0000)
    && (!e.flagged ==> m.flags == 0)
  }

  function HeaderOf(e: Envelope, m: Message): (h: seq<Byte>)
    ensures |h| == HeaderBytes(e)
  {
    if e.flagged then [1, m.kind, m.flags, 0] + Be(|m.payload|, 2) + [0, 0]
    else [1, m.kind] + Be(|m.payload|, 4)
  }

  predicate Pads(e: Envelope, m: Message, padding: seq<Byte>) {
    HeaderBytes(e) + |m.payload| + |padding| == e.total
  }

  function SealEnvelope(e: Envelope, m: Message, padding: seq<Byte>): (p: seq<Byte>)
    requires Sealable(e, m) && Pads(e, m, padding)
    ensures |p| == e.total
  {
    HeaderOf(e, m) + m.payload + padding
  }

  function OpenEnvelope(e: Envelope, p: seq<Byte>): Option<Message> {
    if |p| != e.total || |p| < HeaderBytes(e) || p[0] != 1 then None
    else if e.flagged then
      if p[3] != 0 || p[6..8] != [0, 0] || 8 + FromBe(p[4..6]) > e.total then None
      else Some(Message(p[1], p[2], p[8..8 + FromBe(p[4..6])]))
    else if 6 + FromBe(p[2..6]) > e.total then None
    else Some(Message(p[1], 0, p[6..6 + FromBe(p[2..6])]))
  }

  lemma OpenSealed(e: Envelope, m: Message, padding: seq<Byte>)
    requires Sealable(e, m) && Pads(e, m, padding)
    ensures OpenEnvelope(e, SealEnvelope(e, m, padding)) == Some(m)
  {
    Widths();
    if e.flagged {
      BeRoundTrip(|m.payload|, 2);
      FlaggedParts(m, padding);
    } else {
      BeRoundTrip(|m.payload|, 4);
      PlainParts(m, padding);
    }
  }

  lemma FlaggedParts(m: Message, padding: seq<Byte>)
    ensures var n := |m.payload|;
      var p: seq<Byte> := ([1, m.kind, m.flags, 0] + Be(n, 2) + [0, 0]) + m.payload + padding;
      && |p| == 8 + n + |padding| && p[0] == 1 && p[1] == m.kind && p[2] == m.flags && p[3] == 0
      && p[4..6] == Be(n, 2) && p[6..8] == [0, 0] && p[8..8 + n] == m.payload
  {
  }

  lemma PlainParts(m: Message, padding: seq<Byte>)
    ensures var n := |m.payload|;
      var p: seq<Byte> := ([1, m.kind] + Be(n, 4)) + m.payload + padding;
      && |p| == 6 + n + |padding| && p[0] == 1 && p[1] == m.kind
      && p[2..6] == Be(n, 4) && p[6..6 + n] == m.payload
  {
  }

  lemma SealOpened(e: Envelope, p: seq<Byte>)
    requires OpenEnvelope(e, p).Some?
    ensures var m := OpenEnvelope(e, p).value;
      && Sealable(e, m)
      && var padding := p[HeaderBytes(e) + |m.payload|..];
         Pads(e, m, padding) && p == SealEnvelope(e, m, padding)
  {
    var m := OpenEnvelope(e, p).value;
    var n := |m.payload|;
    Widths();
    if e.flagged {
      FromBeCanonical(p[4..6]);
      assert p == [p[0], p[1], p[2], p[3]] + p[4..6] + p[6..8] + p[8..8 + n] + p[8 + n..];
    } else {
      FromBeCanonical(p[2..6]);
      assert p == [p[0], p[1]] + p[2..6] + p[6..6 + n] + p[6 + n..];
    }
  }
}
