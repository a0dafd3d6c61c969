/**
  The scheme that all message codecs of the transport share: a kind and flags
  choose the fields, the fields make the payload, the envelope pads it to a
  fixed size.
 */
module MessageCodec {
  import opened Basics
  import opened Bytes
  import opened Fields

  /** One codec: how a message is taken apart into kind, flags and values, and read again from them. */
  datatype Codec<!A> = Codec(
    envelope: Envelope,
    valid: A -> bool,
    kind: A -> Byte,
    flags: A -> Byte,
    values: A -> seq<Value>,
    fields: (Byte, Byte) -> Option<seq<Field>>,
    read: (Byte, Byte, seq<Value>) -> Option<A>)

  function NoFlags<A>(a: A): Byte {
    0
  }

  /** The message has fields, fits them and can be read back. */
  ghost predicate Writes<A>(c: Codec<A>, a: A) {
    var fs := c.fields(c.kind(a), c.flags(a));
    fs.Some? && FitAll(fs.value, c.values(a)) && c.read(c.kind(a), c.flags(a), c.values(a)) == Some(a)
  }

  /** What is read is a valid message that is taken apart into the very same values. */
  ghost predicate Reads<A>(c: Codec<A>, kind: Byte, flags: Byte, vs: seq<Value>) {
    var fs, a := c.fields(kind, flags), c.read(kind, flags, vs);
    fs.Some? && FitAll(fs.value, vs) && a.Some? ==>
      c.valid(a.value) && c.kind(a.value) == kind && c.flags(a.value) == flags && c.values(a.value) == vs
  }

  ghost predicate Coherent<A(!new)>(c: Codec<A>) {
    (forall a :: c.valid(a) ==> Writes(c, a)) && (forall kind, flags, vs :: Reads(c, kind, flags, vs))
  }

  ghost function MessageOf<A(!new)>(c: Codec<A>, a: A): Message
    requires Coherent(c) && c.valid(a)
  {
    assert Writes(c, a);
    Message(c.kind(a), c.flags(a), PutAll(c.fields(c.kind(a), c.flags(a)).value, c.values(a)))
  }

  /** The plaintext of a valid message that fits its envelope; the padding is random. */
  ghost function Encode<A(!new)>(c: Codec<A>, a: A, padding: seq<Byte>): Option<seq<Byte>>
    requires Coherent(c)
  {
    if c.valid(a) && Sealable(c.envelope, MessageOf(c, a)) && Pads(c.envelope, MessageOf(c, a), padding)
    then Some(SealEnvelope(c.envelope, MessageOf(c, a), padding)) else None
  }

  function Decode<A>(c: Codec<A>, p: seq<Byte>): Option<A> {
    var m := OpenEnvelope(c.envelope, p);
    if m.None? then None
    else
      var fs := c.fields(m.value.kind, m.value.flags);
      if fs.None? then None
      else
        var vs := TakeAll(fs.value, m.value.payload);
        if vs.None? then None else c.read(m.value.kind, m.value.flags, vs.value)
  }

  /** Decoding undoes encoding, for every padding. */
  lemma RoundTrip<A(!new)>(c: Codec<A>, a: A, padding: seq<Byte>)
    requires Coherent(c) && Encode(c, a, padding).Some?
    ensures Decode(c, Encode(c, a, padding).value) == Some(a)
  {
    var m := MessageOf(c, a);
    assert Writes(c, a);
    OpenSealed(c.envelope, m, padding);
    TakeAllPutAll(c.fields(m.kind, m.flags).value, c.values(a));
  }

  /** The bytes in front of the padding. */
  ghost function Used<A(!new)>(c: Codec<A>, a: A): nat
    requires Coherent(c) && c.valid(a)
  {
    HeaderBytes(c.envelope) + |MessageOf(c, a).payload|
  }

  /** Only encodings are accepted: the plaintext is determined by the message up to its padding. */
  lemma Canonical<A(!new)>(c: Codec<A>, p: seq<Byte>)
    requires Coherent(c) && Decode(c, p).Some?
    ensures var a := Decode(c, p).value;
      c.valid(a) && Used(c, a) <= |p| && Encode(c, a, p[Used(c, a)..]) == Some(p)
  {
    var m := OpenEnvelope(c.envelope, p).value;
    var fs := c.fields(m.kind, m.flags).value;
    SealOpened(c.envelope, p);
    PutAllTakeAll(fs, m.payload);
    var vs := TakeAll(fs, m.payload).value;
    assert Reads(c, m.kind, m.flags, vs);
    assert MessageOf(c, Decode(c, p).value) == m;
  }

  /** Two accepted plaintexts of the same message agree on every byte outside the padding. */
  lemma SameMessageSameBytes<A(!new)>(c: Codec<A>, p: seq<Byte>, q: seq<Byte>)
    requires Coherent(c) && Decode(c, p).Some? && Decode(c, p) == Decode(c, q)
    ensures var a := Decode(c, p).value;
      c.valid(a) && Used(c, a) <= |p| == |q| && p[..Used(c, a)] == q[..Used(c, a)]
  {
    var a := Decode(c, p).value;
    Canonical(c, p);
    Canonical(c, q);
    var m, n := MessageOf(c, a), Used(c, a);
    assert p[..n] == HeaderOf(c.envelope, m) + m.payload == q[..n];
  }
}
