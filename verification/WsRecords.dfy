/**
  WebSocket records: a counter per direction, a header that repeats it, and an
  authenticated cipher. The cipher is ideal: it opens exactly what was sealed
  under the same nonce and associated data.
 */
module WsRecords {
  import opened Basics
  import opened Bytes

  const MAX_PLAINTEXT_BYTES: nat := 16 * 1024 * 1024
  const MAX_AAD_BYTES: nat := 4 * 1024
  const TAG_BYTES: nat := 16
  const HEADER_BYTES: nat := 18
  const MAGIC: seq<Byte> := [0x41, 0x42, 0x57, 0x31]
  const VERSION: Byte := 11

  // ---- Framing of associated data -----------------------------------------

  /** `canonical_parts`: every part behind its length, which is cut to 32 bits. */
  function CanonicalParts(parts: seq<seq<Byte>>): seq<Byte> {
    if parts == [] then [] else Be(|parts[0]|, 4) + parts[0] + CanonicalParts(parts[1..])
  }

  predicate ShortParts(parts: seq<seq<Byte>>) {
    forall i :: 0 <= i < |parts| ==> |parts[i]| < 0x1_0000_0000
  }

  /** On lists of parts shorter than 2^32 bytes the framing loses nothing, not even where one part ends. */
  lemma {:induction false} CanonicalPartsInjective(a: seq<seq<Byte>>, b: seq<seq<Byte>>)
    requires ShortParts(a) && ShortParts(b) && CanonicalParts(a) == CanonicalParts(b)
    ensures a == b
  {
    if a != [] && b != [] {
      var s := CanonicalParts(a);
      FirstPart(a);
      FirstPart(b);
      assert s[..4] == Be(|a[0]|, 4) == Be(|b[0]|, 4);
      assert |a[0]| == |b[0]|;
      assert s[4..4 + |a[0]|] == a[0] == b[0];
      assert s[4 + |a[0]|..] == CanonicalParts(a[1..]) == CanonicalParts(b[1..]);
      CanonicalPartsInjective(a[1..], b[1..]);
      assert a == [a[0]] + a[1..] && b == [b[0]] + b[1..];
    }
  }

  lemma FirstPart(parts: seq<seq<Byte>>)
    requires ShortParts(parts) && parts != []
    ensures var s, n := CanonicalParts(parts), |parts[0]|;
      |s| >= 4 + n && s[..4] == Be(n, 4) && FromBe(s[..4]) == n && s[4..4 + n] == parts[0]
      && s[4 + n..] == CanonicalParts(parts[1..])
  {
    Widths();
    BeRoundTrip(|parts[0]|, 4);
    var s, n := CanonicalParts(parts), |parts[0]|;
    assert s[..4] == Be(n, 4) && s[4..4 + n] == parts[0] && s[4 + n..] == CanonicalParts(parts[1..]);
  }

  lemma {:induction false} CanonicalPartsSnoc(parts: seq<seq<Byte>>, last: seq<Byte>)
    ensures CanonicalParts(parts + [last]) == CanonicalParts(parts) + (Be(|last|, 4) + last)
  {
    if parts == [] {
      assert parts + [last] == [last];
      OnePart(last);
    } else {
      assert (parts + [last])[1..] == parts[1..] + [last];
      CanonicalPartsSnoc(parts[1..], last);
    }
  }

  /** The loop of `canonical_parts`, which appends part after part. */
  method AppendParts(parts: seq<seq<Byte>>) returns (output: seq<Byte>)
    ensures output == CanonicalParts(parts)
  {
    output := [];
    var i := 0;
    while i < |parts|
      invariant 0 <= i <= |parts| && output == CanonicalParts(parts[..i])
    {
      CanonicalPartsSnoc(parts[..i], parts[i]);
      assert parts[..i + 1] == parts[..i] + [parts[i]];
      output := output + Be(|parts[i]|, 4);
      output := output + parts[i];
      i := i + 1;
    }
    assert parts[..|parts|] == parts;
  }

  /** At 2^32 bytes the cut length makes one part look like two. */
  lemma LongPartsCollide(tail: seq<Byte>)
    requires |tail| == 0xFFFF_FFFC
    ensures var body := Be(|tail|, 4) + tail;
      [body] != [[], tail] && CanonicalParts([body]) == CanonicalParts([[], tail])
  {
    var body := Be(|tail|, 4) + tail;
    LengthWraps();
    OnePart(body);
    OnePart(tail);
    var two: seq<seq<Byte>> := [[], tail];
    assert two[1..] == [tail];
    assert CanonicalParts(two) == Be(0, 4) + CanonicalParts([tail]);
  }

  lemma OnePart(part: seq<Byte>)
    ensures CanonicalParts([part]) == Be(|part|, 4) + part
  {
    var one: seq<seq<Byte>> := [part];
    assert one[1..] == [];
  }

  lemma LengthWraps()
    ensures Be(0x1_0000_0000, 4) == Be(0, 4)
  {
    assert Be(0x1_0000_0000, 4) == Be(0x100_0000, 3) + [0];
    assert Be(0x100_0000, 3) == Be(0x1_0000, 2) + [0];
    assert Be(0x1_0000, 2) == Be(0x100, 1) + [0];
    assert Be(0, 4) == Be(0, 3) + [0];
    assert Be(0, 3) == Be(0, 2) + [0];
    assert Be(0, 2) == Be(0, 1) + [0];
    assert Be(0x100, 1) == [0] == Be(0, 1);
  }

  // ---- Nonces and headers -------------------------------------------------

  /** `ws_nonce` */
  function Nonce(direction: Byte, counter: nat): seq<Byte> {
    [0, 0, 0, direction] + Be(counter, 8)
  }

  lemma NonceInjective(d: Byte, i: nat, e: Byte, j: nat)
    requires i <= U64_MAX && j <= U64_MAX && Nonce(d, i) == Nonce(e, j)
    ensures d == e && i == j
  {
    Widths();
    BeRoundTrip(i, 8);
    BeRoundTrip(j, 8);
    assert Nonce(d, i)[4..] == Be(i, 8) && Nonce(e, j)[4..] == Be(j, 8);
    assert Nonce(d, i)[3] == d && Nonce(e, j)[3] == e;
  }

  /** `ws_header` */
  function Header(direction: Byte, counter: nat, ciphertextLen: nat): (h: seq<Byte>)
    ensures |h| == HEADER_BYTES
  {
    MAGIC + [VERSION] + [direction] + Be(counter, 8) + Be(ciphertextLen, 4)
  }

  datatype Decoded = Decoded(header: seq<Byte>, direction: Byte, counter: nat, ciphertext: seq<Byte>)

  /** `decode_ws` */
  function Decode(record: seq<Byte>): Option<Decoded> {
    if |record| < HEADER_BYTES + TAG_BYTES + 1 || |record| > HEADER_BYTES + MAX_PLAINTEXT_BYTES + TAG_BYTES then None
    else if record[..4] != MAGIC || record[4] != VERSION then None
    else if record[5] != 1 && record[5] != 2 then None
    else if FromBe(record[14..18]) != |record| - HEADER_BYTES then None
    else Some(Decoded(record[..18], record[5], FromBe(record[6..14]), record[18..]))
  }

  /** Every well-formed header and ciphertext decodes, and nothing else does. */
  lemma DecodeInvertsHeader(direction: Byte, counter: nat, ciphertext: seq<Byte>)
    requires (direction == 1 || direction == 2) && counter <= U64_MAX
    requires TAG_BYTES < |ciphertext| <= MAX_PLAINTEXT_BYTES + TAG_BYTES
    ensures var h := Header(direction, counter, |ciphertext|);
      Decode(h + ciphertext) == Some(Decoded(h, direction, counter, ciphertext))
  {
    Widths();
    BeRoundTrip(counter, 8);
    BeRoundTrip(|ciphertext|, 4);
    var h := Header(direction, counter, |ciphertext|);
    var r := h + ciphertext;
    assert h[6..14] == Be(counter, 8) && h[14..18] == Be(|ciphertext|, 4) && h[..4] == MAGIC;
    assert r[6..14] == h[6..14] && r[14..18] == h[14..18] && r[..4] == h[..4] && r[..18] == h && r[18..] == ciphertext;
  }

  lemma DecodeIsCanonical(record: seq<Byte>)
    requires Decode(record).Some?
    ensures var d := Decode(record).value;
      && d.counter <= U64_MAX && d.header == Header(d.direction, d.counter, |d.ciphertext|)
      && record == d.header + d.ciphertext
      && (d.direction == 1 || d.direction == 2) && TAG_BYTES < |d.ciphertext| <= MAX_PLAINTEXT_BYTES + TAG_BYTES
  {
    Widths();
    FromBeCanonical(record[6..14]);
    FromBeCanonical(record[14..18]);
    assert record[..18] == record[..4] + [record[4]] + [record[5]] + record[6..14] + record[14..18];
  }

  // ---- Sealing and opening ------------------------------------------------

  /** One use of the cipher. */
  datatype Sealing = Sealing(nonce: seq<Byte>, bound: seq<Byte>, plaintext: seq<Byte>, ciphertext: seq<Byte>)

  predicate Opens(e: Sealing, nonce: seq<Byte>, bound: seq<Byte>, ciphertext: seq<Byte>) {
    e.nonce == nonce && e.bound == bound && e.ciphertext == ciphertext
  }

  datatype Letter = Letter(aad: seq<Byte>, plaintext: seq<Byte>)

  predicate Sendable(m: Letter) {
    |m.aad| <= MAX_AAD_BYTES && 0 < |m.plaintext| <= MAX_PLAINTEXT_BYTES
  }

  /** The cipher call that seals a letter. */
  function SealingOf(direction: Byte, counter: nat, m: Letter, ciphertext: seq<Byte>): Sealing {
    Sealing(Nonce(direction, counter), CanonicalParts([Header(direction, counter, |m.plaintext| + TAG_BYTES), m.aad]),
            m.plaintext, ciphertext)
  }

  /** The cipher's answer: the plaintext of a matching earlier sealing. */
  ghost function Decrypt(log: seq<Sealing>, nonce: seq<Byte>, bound: seq<Byte>,
                         ciphertext: seq<Byte>): (p: Option<seq<Byte>>)
    ensures p.Some? <==> exists i :: 0 <= i < |log| && Opens(log[i], nonce, bound, ciphertext)
    ensures p.Some? ==>
      exists i :: 0 <= i < |log| && Opens(log[i], nonce, bound, ciphertext) && log[i].plaintext == p.value
  {
    if exists i :: 0 <= i < |log| && Opens(log[i], nonce, bound, ciphertext) then
      var i :| 0 <= i < |log| && Opens(log[i], nonce, bound, ciphertext);
      Some(log[i].plaintext)
    else None
  }

  /** `WsOpener::open`, up to the advance of its counter. */
  ghost function Opened(log: seq<Sealing>, direction: Byte, next: nat, aad: seq<Byte>,
                        record: seq<Byte>): Option<seq<Byte>> {
    if |aad| > MAX_AAD_BYTES || next == U64_MAX then None
    else
      var d := Decode(record);
      if d.None? || d.value.direction != direction || d.value.counter != next then None
      else
        var p := Decrypt(log, Nonce(direction, next), CanonicalParts([d.value.header, aad]), d.value.ciphertext);
        if p.None? || |p.value| == 0 || |p.value| > MAX_PLAINTEXT_BYTES then None else p
  }

  // ---- Runs over a hostile network ----------------------------------------

  /** One direction of a connection: both counters, the cipher's history, what was sent and delivered. */
  datatype World = World(sendNext: nat, openNext: nat, log: seq<Sealing>, sent: seq<Letter>, delivered: seq<Letter>)

  const Start := World(0, 0, [], [], [])

  /** The sender seals a letter; the network presents any bytes whatsoever. */
  datatype Step =
    | Seal(letter: Letter, ciphertext: seq<Byte>)
    | Present(aad: seq<Byte>, record: seq<Byte>)

  predicate Enabled(w: World, s: Step) {
    s.Seal? ==> |s.ciphertext| == |s.letter.plaintext| + TAG_BYTES
  }

  predicate CanSeal(w: World, m: Letter) {
    Sendable(m) && w.sendNext != U64_MAX
  }

  ghost function Next(w: World, s: Step, direction: Byte): World {
    match s
    case Seal(m, ciphertext) =>
      if !CanSeal(w, m) then w
      else
        w.(sendNext := w.sendNext + 1, log := w.log + [SealingOf(direction, w.sendNext, m, ciphertext)],
           sent := w.sent + [m])
    case Present(aad, record) =>
      var p := Opened(w.log, direction, w.openNext, aad, record);
      if p.None? then w
      else w.(openNext := w.openNext + 1, delivered := w.delivered + [Letter(aad, p.value)])
  }

  ghost predicate LoggedAt(w: World, direction: Byte, i: nat)
    requires i < |w.log| && i < |w.sent|
  {
    w.log[i] == SealingOf(direction, i, w.sent[i], w.log[i].ciphertext) && Sendable(w.sent[i])
  }

  ghost predicate Faithful(w: World, direction: Byte) {
    && w.sendNext == |w.log| == |w.sent| <= U64_MAX && w.openNext == |w.delivered| <= |w.sent|
    && (forall i :: 0 <= i < |w.log| ==> LoggedAt(w, direction, i))
    && w.delivered == w.sent[..|w.delivered|]
  }

  /** What opens at this counter is the letter that was sealed at this counter, with its associated data. */
  lemma OpenedIsNext(w: World, direction: Byte, aad: seq<Byte>, record: seq<Byte>)
    requires Faithful(w, direction) && Opened(w.log, direction, w.openNext, aad, record).Some?
    ensures w.openNext < |w.sent|
    ensures w.sent[w.openNext] == Letter(aad, Opened(w.log, direction, w.openNext, aad, record).value)
  {
    var d := Decode(record).value;
    var bound := CanonicalParts([d.header, aad]);
    var p := Opened(w.log, direction, w.openNext, aad, record).value;
    var i :| 0 <= i < |w.log| && Opens(w.log[i], Nonce(direction, w.openNext), bound, d.ciphertext)
          && w.log[i].plaintext == p;
    assert LoggedAt(w, direction, i);
    NonceInjective(direction, i, direction, w.openNext);
    var header := Header(direction, i, |w.sent[i].plaintext| + TAG_BYTES);
    CanonicalPartsInjective([header, w.sent[i].aad], [d.header, aad]);
    assert w.sent[i].aad == [header, w.sent[i].aad][1] == [d.header, aad][1] == aad;
  }

  lemma StepFaithful(w: World, s: Step, direction: Byte)
    requires Faithful(w, direction)
    ensures Faithful(Next(w, s, direction), direction)
  {
    var v := Next(w, s, direction);
    if s.Seal? {
      forall i | 0 <= i < |v.log| ensures LoggedAt(v, direction, i) {
        if i < |w.log| { assert LoggedAt(w, direction, i); }
      }
      assert v.sent[..|v.delivered|] == w.sent[..|w.delivered|];
    } else if Opened(w.log, direction, w.openNext, s.aad, s.record).Some? {
      OpenedIsNext(w, direction, s.aad, s.record);
      forall i | 0 <= i < |v.log| ensures LoggedAt(v, direction, i) { assert LoggedAt(w, direction, i); }
      assert w.sent[..w.openNext + 1] == w.sent[..w.openNext] + [w.sent[w.openNext]];
    }
  }

  ghost predicate Run(ws: seq<World>, steps: seq<Step>, direction: Byte) {
    |ws| == |steps| + 1 && ws[0] == Start && forall i :: 0 <= i < |steps| ==> StepAt(ws, steps, i, direction)
  }

  ghost predicate StepAt(ws: seq<World>, steps: seq<Step>, i: nat, direction: Byte)
    requires i < |steps| && i + 1 < |ws|
  {
    Enabled(ws[i], steps[i]) && ws[i + 1] == Next(ws[i], steps[i], direction)
  }

  /** Whatever the network drops, repeats, reorders or invents, the delivered letters are a prefix of the sent ones. */
  lemma {:induction false} DeliveredIsPrefix(ws: seq<World>, steps: seq<Step>, n: nat, direction: Byte)
    requires Run(ws, steps, direction) && n < |ws|
    ensures Faithful(ws[n], direction) && ws[n].delivered <= ws[n].sent
  {
    if n > 0 {
      DeliveredIsPrefix(ws, steps, n - 1, direction);
      assert StepAt(ws, steps, n - 1, direction);
      StepFaithful(ws[n - 1], steps[n - 1], direction);
    }
  }

  /** No nonce is ever used twice, in either direction. */
  lemma NoncesDistinct(ws: seq<World>, steps: seq<Step>, n: nat, d: Byte, vs: seq<World>, others: seq<Step>, m: nat,
                       e: Byte, i: nat, j: nat)
    requires Run(ws, steps, d) && n < |ws| && Run(vs, others, e) && m < |vs|
    requires i < |ws[n].log| && j < |vs[m].log| && ws[n].log[i].nonce == vs[m].log[j].nonce
    ensures d == e && i == j
  {
    DeliveredIsPrefix(ws, steps, n, d);
    DeliveredIsPrefix(vs, others, m, e);
    assert LoggedAt(ws[n], d, i) && LoggedAt(vs[m], e, j);
    NonceInjective(d, i, e, j);
  }

  /** A record that arrives in order is delivered: the opener refuses nothing that is genuine and due. */
  lemma GenuineRecordOpens(w: World, direction: Byte)
    requires Faithful(w, direction) && w.openNext < |w.sent| && (direction == 1 || direction == 2)
    requires |w.log[w.openNext].ciphertext| == |w.sent[w.openNext].plaintext| + TAG_BYTES
    ensures var i := w.openNext;
      var record := Header(direction, i, |w.log[i].ciphertext|) + w.log[i].ciphertext;
      Opened(w.log, direction, i, w.sent[i].aad, record) == Some(w.sent[i].plaintext)
  {
    var i := w.openNext;
    assert LoggedAt(w, direction, i);
    var record := Header(direction, i, |w.log[i].ciphertext|) + w.log[i].ciphertext;
    DecodeInvertsHeader(direction, i, w.log[i].ciphertext);
    var d := Decode(record).value;
    var bound := CanonicalParts([d.header, w.sent[i].aad]);
    assert Opens(w.log[i], Nonce(direction, i), bound, d.ciphertext);
    var p := Decrypt(w.log, Nonce(direction, i), bound, d.ciphertext).value;
    var k :| 0 <= k < |w.log| && Opens(w.log[k], Nonce(direction, i), bound, d.ciphertext) && w.log[k].plaintext == p;
    assert LoggedAt(w, direction, k);
    NonceInjective(direction, k, direction, i);
  }

  // ---- The endpoints ------------------------------------------------------

  class WsSealer {
    const direction: Byte
    var nextCounter: nat

    constructor (direction: Byte)
      ensures this.direction == direction && nextCounter == 0
    {
      this.direction := direction;
      nextCounter := 0;
    }

    /** `seal`; `encrypt` is the cipher under this endpoint's key. */
    method SealRecord(aad: seq<Byte>, plaintext: seq<Byte>, encrypt: (seq<Byte>, seq<Byte>, seq<Byte>) -> seq<Byte>)
        returns (record: Option<seq<Byte>>)
      requires nextCounter <= U64_MAX
      modifies this
      ensures record.Some? <==>
              |aad| <= MAX_AAD_BYTES && 0 < |plaintext| <= MAX_PLAINTEXT_BYTES && old(nextCounter) < U64_MAX
      ensures record.None? ==> nextCounter == old(nextCounter)
      ensures record.Some? ==>
        && nextCounter == old(nextCounter) + 1 <= U64_MAX
        && var e := SealingOf(direction, old(nextCounter), Letter(aad, plaintext), []);
           record.value
             == Header(direction, old(nextCounter), |plaintext| + TAG_BYTES) + encrypt(e.nonce, e.bound, plaintext)
    {
      if |aad| > MAX_AAD_BYTES || |plaintext| == 0 || |plaintext| > MAX_PLAINTEXT_BYTES || nextCounter == U64_MAX {
        return None;
      }
      var header := Header(direction, nextCounter, |plaintext| + TAG_BYTES);
      var ciphertext := encrypt(Nonce(direction, nextCounter), CanonicalParts([header, aad]), plaintext);
      nextCounter := nextCounter + 1;
      return Some(header + ciphertext);
    }
  }

  class WsOpener {
    const direction: Byte
    var nextCounter: nat

    constructor (direction: Byte)
      ensures this.direction == direction && nextCounter == 0
    {
      this.direction := direction;
      nextCounter := 0;
    }

    /** `open` against the ideal cipher with this history. */
    method OpenRecord(aad: seq<Byte>, record: seq<Byte>, decrypt: (seq<Byte>, seq<Byte>,
                      seq<Byte>) -> Option<seq<Byte>>,
                      ghost log: seq<Sealing>)
        returns (plaintext: Option<seq<Byte>>)
      requires nextCounter <= U64_MAX
      requires forall nonce, bound, ciphertext ::
        decrypt(nonce, bound, ciphertext) == Decrypt(log, nonce, bound, ciphertext)
      modifies this
      ensures plaintext == Opened(log, direction, old(nextCounter), aad, record)
      ensures nextCounter == if plaintext.Some? then old(nextCounter) + 1 else old(nextCounter)
    {
      if |aad| > MAX_AAD_BYTES || nextCounter == U64_MAX { return None; }
      var d := Decode(record);
      if d.None? || d.value.direction != direction { return None; }
      if d.value.counter < nextCounter { return None; }
      if d.value.counter > nextCounter { return None; }
      var p := decrypt(Nonce(direction, nextCounter), CanonicalParts([d.value.header, aad]), d.value.ciphertext);
      if p.None? || |p.value| == 0 || |p.value| > MAX_PLAINTEXT_BYTES { return None; }
      nextCounter := nextCounter + 1;
      return p;
    }
  }
}
