/**
  The sliding window of accepted identity-state revisions that every account
  carries: `state_revision` is the newest accepted revision and
  `state_revision_window` a 128-bit word whose bit k stands for the revision
  `state_revision - k`.

  The word is a natural number below 2^128; shifting left drops the high bits.
 */
module RevisionWindow {
  import opened Basics

  const WINDOW_BITS: nat := 128
  const MAX_ADVANCE: nat := 1024

  /** Bit k of a word, least significant first. */
  predicate Bit(w: nat, k: nat) {
    if k == 0 then w % 2 == 1 else Bit(w / 2, k - 1)
  }

  /** `w << a` on 128-bit words. */
  function ShiftLeft(w: nat, a: nat): nat {
    w * Pow2(a) % Pow2(WINDOW_BITS)
  }

  /** `w | (1 << k)`. */
  function SetBit(w: nat, k: nat): nat {
    if Bit(w, k) then w else w + Pow2(k)
  }

  datatype Window = Window(revision: nat, word: nat)

  const Initial := Window(0, 1)

  datatype Verdict = Rejected | Accepted(next: Window)

  /** The tail of `apply_identity_state_locked_with_consumed`: the revision rules alone. */
  function Offer(w: Window, revision: nat, allowReuse: bool): Verdict {
    if revision > w.revision then
      var advance := revision - w.revision;
      if advance > MAX_ADVANCE then Rejected
      else if advance >= WINDOW_BITS then Accepted(Window(revision, 1))
      else Accepted(Window(revision, SetBit(ShiftLeft(w.word, advance), 0)))
    else
      var lag := w.revision - revision;
      if lag >= WINDOW_BITS then
        if allowReuse then Accepted(w) else Rejected
      else if Bit(w.word, lag) && !allowReuse then Rejected
      else Accepted(w.(word := SetBit(w.word, lag)))
  }

  // ---- The bits of a word -------------------------------------------------

  lemma {:induction false} BitOfZero(k: nat)
    ensures !Bit(0, k)
  {
    if k > 0 { BitOfZero(k - 1); }
  }

  lemma {:induction false} BitOfOne(k: nat)
    ensures Bit(1, k) == (k == 0)
  {
    if k > 0 { BitOfZero(k - 1); }
  }

  lemma {:induction false} BitOfScaled(w: nat, a: nat, k: nat)
    ensures Bit(w * Pow2(a), k) == (k >= a && Bit(w, k - a))
  {
    if a > 0 {
      var v := w * Pow2(a - 1);
      assert w * Pow2(a) == 2 * v;
      if k > 0 { BitOfScaled(w, a - 1, k - 1); }
    }
  }

  lemma HalveModulo(w: nat, p: nat)
    requires p > 0
    ensures w % (2 * p) % 2 == w % 2
    ensures w % (2 * p) / 2 == w / 2 % p
  {
    var q, r := w / (2 * p), w % (2 * p);
    assert w == q * (2 * p) + r == 2 * (q * p) + r;
    assert w / 2 == q * p + r / 2;
    assert 0 <= r / 2 < p;
    ModuloUnique(w / 2, q, r / 2, p);
  }

  lemma ModuloUnique(x: nat, q: nat, r: nat, p: nat)
    requires p > 0 && r < p && x == q * p + r
    ensures x % p == r
  {
    var d: int := x / p - q;
    assert x == (x / p) * p + x % p;
    assert d * p == (x / p) * p - q * p;
    assert d > 0 ==> d * p >= p;
    assert d < 0 ==> d * p + p <= 0;
    assert d * p < p && 0 < d * p + p;
  }

  lemma {:induction false} BitOfTruncated(w: nat, n: nat, k: nat)
    requires k < n
    ensures Bit(w % Pow2(n), k) == Bit(w, k)
  {
    HalveModulo(w, Pow2(n - 1));
    if k > 0 { BitOfTruncated(w / 2, n - 1, k - 1); }
  }

  /** Shifting moves every surviving bit up by a. */
  lemma BitOfShifted(w: nat, a: nat, k: nat)
    requires k < WINDOW_BITS
    ensures Bit(ShiftLeft(w, a), k) == (k >= a && Bit(w, k - a))
  {
    BitOfTruncated(w * Pow2(a), WINDOW_BITS, k);
    BitOfScaled(w, a, k);
  }

  /** Setting a bit changes no other bit. */
  lemma {:induction false} BitOfSet(w: nat, l: nat, k: nat)
    ensures Bit(SetBit(w, l), k) == (k == l || Bit(w, k))
  {
    if l == 0 || Bit(w, l) {
      if k > 0 { assert SetBit(w, l) / 2 == w / 2 || Bit(w, l); }
    } else {
      assert SetBit(w, l) == w + 2 * Pow2(l - 1);
      assert SetBit(w, l) / 2 == w / 2 + Pow2(l - 1) == SetBit(w / 2, l - 1);
      if k > 0 { BitOfSet(w / 2, l - 1, k - 1); }
    }
  }

  lemma {:induction false} SetBitStaysInWord(w: nat, l: nat, n: nat)
    requires w < Pow2(n) && l < n
    ensures SetBit(w, l) < Pow2(n)
  {
    if l > 0 && !Bit(w, l) {
      SetBitStaysInWord(w / 2, l - 1, n - 1);
    }
  }

  // ---- Refinement of the set of accepted revisions ------------------------

  /** The window shows exactly the accepted revisions it still has room for. */
  ghost predicate Shows(w: Window, accepted: set<nat>) {
    && w.word < Pow2(WINDOW_BITS)
    && w.revision in accepted
    && (forall r :: r in accepted ==> r <= w.revision)
    && (forall k: nat :: k < WINDOW_BITS ==>
          (Bit(w.word, k) <==> k <= w.revision && w.revision - k in accepted))
  }

  lemma InitialShows()
    ensures Shows(Initial, {0})
  {
    forall k: nat | k < WINDOW_BITS ensures Bit(1, k) == (k == 0) { BitOfOne(k); }
    assert Pow2(WINDOW_BITS) == 2 * Pow2(WINDOW_BITS - 1);
  }

  /**
    One offer against the set it stands for. Without reuse a revision is
    accepted only if it was never accepted before; the converse holds for every
    revision still inside the window and no further ahead than the allowed
    advance.
   */
  lemma OfferRefines(w: Window, accepted: set<nat>, revision: nat, allowReuse: bool)
    requires Shows(w, accepted)
    ensures var v := Offer(w, revision, allowReuse);
      && (v.Accepted? ==> Shows(v.next, accepted + {revision}))
      && (v.Accepted? && !allowReuse ==> revision !in accepted)
      && (v.Accepted? ==> v.next.revision == if revision > w.revision then revision else w.revision)
      && (v.Accepted? <==>
            && revision <= w.revision + MAX_ADVANCE
            && (allowReuse || (revision !in accepted && w.revision < revision + WINDOW_BITS)))
  {
    if revision > w.revision {
      var advance := revision - w.revision;
      if advance <= MAX_ADVANCE {
        AdvanceShows(w, accepted, revision);
      }
    } else {
      var lag := w.revision - revision;
      if lag < WINDOW_BITS {
        forall k: nat | k < WINDOW_BITS
          ensures Bit(SetBit(w.word, lag), k) == (k == lag || Bit(w.word, k))
        {
          BitOfSet(w.word, lag, k);
        }
        SetBitStaysInWord(w.word, lag, WINDOW_BITS);
      }
    }
  }

  lemma AdvanceShows(w: Window, accepted: set<nat>, revision: nat)
    requires Shows(w, accepted)
    requires w.revision < revision <= w.revision + MAX_ADVANCE
    ensures Shows(Offer(w, revision, false).next, accepted + {revision})
    ensures Offer(w, revision, false) == Offer(w, revision, true)
  {
    var advance := revision - w.revision;
    if advance >= WINDOW_BITS {
      forall k: nat | k < WINDOW_BITS ensures Bit(1, k) == (k == 0) { BitOfOne(k); }
      assert Pow2(WINDOW_BITS) == 2 * Pow2(WINDOW_BITS - 1);
    } else {
      var shifted := ShiftLeft(w.word, advance);
      forall k: nat | k < WINDOW_BITS
        ensures Bit(SetBit(shifted, 0), k) == (k == 0 || (k >= advance && Bit(w.word, k - advance)))
      {
        BitOfSet(shifted, 0, k);
        BitOfShifted(w.word, advance, k);
      }
      SetBitStaysInWord(shifted, 0, WINDOW_BITS);
    }
  }

  // ---- Whole runs ---------------------------------------------------------

  datatype Attempt = Attempt(revision: nat, allowReuse: bool)

  /** The window after a run of offers; rejected offers leave it alone. */
  function Run(w: Window, attempts: seq<Attempt>): Window {
    if attempts == [] then w
    else
      var before := Run(w, attempts[..|attempts| - 1]);
      var last := attempts[|attempts| - 1];
      match Offer(before, last.revision, last.allowReuse)
      case Rejected => before
      case Accepted(next) => next
  }

  /** Whether the i-th offer of a run was accepted. */
  predicate AcceptedAt(attempts: seq<Attempt>, i: nat)
    requires i < |attempts|
  {
    Offer(Run(Initial, attempts[..i]), attempts[i].revision, attempts[i].allowReuse).Accepted?
  }

  /** The revisions accepted in a run, the registration's revision 0 included. */
  function AcceptedIn(attempts: seq<Attempt>): set<nat> {
    if attempts == [] then {0}
    else
      var i := |attempts| - 1;
      AcceptedIn(attempts[..i]) + if AcceptedAt(attempts, i) then {attempts[i].revision} else {}
  }

  lemma {:induction false} RunShows(attempts: seq<Attempt>)
    ensures Shows(Run(Initial, attempts), AcceptedIn(attempts))
  {
    if attempts == [] {
      InitialShows();
    } else {
      var i := |attempts| - 1;
      RunShows(attempts[..i]);
      OfferRefines(Run(Initial, attempts[..i]), AcceptedIn(attempts[..i]),
                   attempts[i].revision, attempts[i].allowReuse);
    }
  }

  lemma {:induction false} AcceptedInGrows(attempts: seq<Attempt>, i: nat, j: nat)
    requires i < j <= |attempts| && AcceptedAt(attempts, i)
    ensures attempts[i].revision in AcceptedIn(attempts[..j])
    decreases j
  {
    assert attempts[..j][..j - 1] == attempts[..j - 1];
    assert attempts[..j][..i] == attempts[..i];
    if i < j - 1 { AcceptedInGrows(attempts, i, j - 1); }
  }

  /**
    Over any run: a revision accepted once, in either mode, is never again
    accepted without reuse, however far the window moved in between.
   */
  lemma NoSecondAcceptance(attempts: seq<Attempt>, i: nat, j: nat)
    requires i < j < |attempts|
    requires AcceptedAt(attempts, i) && AcceptedAt(attempts, j) && !attempts[j].allowReuse
    ensures attempts[i].revision != attempts[j].revision
  {
    RunShows(attempts[..j]);
    AcceptedInGrows(attempts, i, j);
    OfferRefines(Run(Initial, attempts[..j]), AcceptedIn(attempts[..j]), attempts[j].revision, false);
  }

  // ---- One revision across offers -----------------------------------------

  /** The window alone shows that this revision is never accepted again without reuse. */
  predicate Spent(w: Window, revision: nat) {
    revision <= w.revision
    && (w.revision - revision >= WINDOW_BITS || Bit(w.word, w.revision - revision))
  }

  /** An accepted revision is spent, and every spent one stays spent. */
  lemma OfferSpends(w: Window, revision: nat, allowReuse: bool, other: nat)
    requires Offer(w, revision, allowReuse).Accepted?
    ensures var next := Offer(w, revision, allowReuse).next;
      Spent(next, revision) && (Spent(w, other) ==> Spent(next, other))
  {
    if revision > w.revision {
      var advance := revision - w.revision;
      if advance < WINDOW_BITS {
        var shifted := ShiftLeft(w.word, advance);
        BitOfSet(shifted, 0, 0);
        if other <= w.revision && revision - other < WINDOW_BITS {
          BitOfSet(shifted, 0, revision - other);
          BitOfShifted(w.word, advance, revision - other);
        }
      } else {
        BitOfOne(0);
      }
    } else {
      var lag := w.revision - revision;
      BitOfSet(w.word, lag, lag);
      if other <= w.revision { BitOfSet(w.word, lag, w.revision - other); }
    }
  }
}
