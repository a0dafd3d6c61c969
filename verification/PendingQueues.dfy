/**
  Per-recipient pending queues and the global byte counter beside them: the
  push with eviction that a commit performs, the compensation that takes it
  back, and expiry.
 */
module PendingQueues {
  import opened Basics
  import opened Totals

  const MAX_PENDING_FRAMES: nat := 500
  const MAX_PENDING_BYTES: nat := 256 * 1024 * 1024
  const MAX_FRAME_BYTES: nat := 1024 * 1024

  /** The routed part of an outbound message frame; `bytes` is its padded wire size. */
  datatype Frame = Frame(chat: Name, message: Name, sender: Name,
                         prekeyId: Name, isPrekey: bool, bytes: nat)

  datatype PendingFrame = PendingFrame(frame: Frame, enqueuedAt: nat)

  datatype PendingKey = PendingKey(chat: Name, recipient: Name)

  type Pending = map<PendingKey, seq<PendingFrame>>

  /** The queues together with `pending_bytes`. */
  datatype Books = Books(pending: Pending, bytes: nat)

  /** One frame to queue for one recipient. */
  datatype Entry = Entry(key: PendingKey, frame: Frame)

  /** What a commit remembers for its compensation. */
  datatype Plan = Plan(key: PendingKey, evictionIndex: Option<nat>, evicted: Option<PendingFrame>)

  /** A queue position as the dry run of an admission sees it. */
  datatype Slot = Slot(bytes: nat, prekey: bool)

  predicate IsPrekeyFrame(f: Frame) {
    f.isPrekey && f.prekeyId != ""
  }

  function QueueOf(pending: Pending, key: PendingKey): seq<PendingFrame> {
    if key in pending then pending[key] else []
  }

  function SlotOf(pf: PendingFrame): Slot {
    Slot(pf.frame.bytes, IsPrekeyFrame(pf.frame))
  }

  function Shape(q: seq<PendingFrame>): seq<Slot> {
    seq(|q|, i requires 0 <= i < |q| => SlotOf(q[i]))
  }

  /** The first position that holds no prekey frame, or the length if there is none. */
  function FirstOrdinary(s: seq<Slot>): (i: nat)
    ensures i <= |s|
    ensures i < |s| ==> !s[i].prekey
  {
    if s == [] || !s[0].prekey then 0 else 1 + FirstOrdinary(s[1..])
  }

  lemma {:induction false} OnlyPrekeysBefore(s: seq<Slot>, j: nat)
    requires j < FirstOrdinary(s)
    ensures s[j].prekey
  {
    if j > 0 { OnlyPrekeysBefore(s[1..], j - 1); }
  }

  predicate Full(s: seq<Slot>) {
    |s| >= MAX_PENDING_FRAMES
  }

  predicate HasRoom(s: seq<Slot>) {
    !Full(s) || FirstOrdinary(s) < |s|
  }

  /** The position that makes room for one more frame, if a full queue has to make room. */
  function EvictionIndex(s: seq<Slot>): (i: Option<nat>)
    ensures i.Some? ==> i.value < |s| && !s[i.value].prekey
  {
    if Full(s) && HasRoom(s) then Some(FirstOrdinary(s)) else None
  }

  function Evict<T>(q: seq<T>, index: Option<nat>): seq<T>
    requires index.Some? ==> index.value < |q|
  {
    if index.Some? then RemoveAt(q, index.value) else q
  }

  function EvictedBytes(s: seq<Slot>): nat {
    var i := EvictionIndex(s);
    if i.Some? then s[i.value].bytes else 0
  }

  function PlanFor(b: Books, e: Entry): Plan {
    var q := QueueOf(b.pending, e.key);
    var i := EvictionIndex(Shape(q));
    Plan(e.key, i, if i.Some? then Some(q[i.value]) else None)
  }

  /** One iteration of the commit. */
  function PushOne(b: Books, e: Entry, now: nat): Books {
    var q := QueueOf(b.pending, e.key);
    var i := EvictionIndex(Shape(q));
    Books(b.pending[e.key := Evict(q, i) + [PendingFrame(e.frame, now)]],
          SatSub(b.bytes, EvictedBytes(Shape(q))) + e.frame.bytes)
  }

  /** The books after the first n entries of a batch. */
  function PushUpTo(b: Books, entries: seq<Entry>, n: nat, now: nat): Books
    requires n <= |entries|
  {
    if n == 0 then b else PushOne(PushUpTo(b, entries, n - 1, now), entries[n - 1], now)
  }

  function PushAll(b: Books, entries: seq<Entry>, now: nat): Books {
    PushUpTo(b, entries, |entries|, now)
  }

  /** What the dry run checks before the i-th frame may be queued. */
  predicate Fits(b: Books, e: Entry, now: nat) {
    && HasRoom(Shape(QueueOf(b.pending, e.key)))
    && e.frame.bytes <= MAX_FRAME_BYTES
    && PushOne(b, e, now).bytes <= MAX_PENDING_BYTES
  }

  predicate FitsAt(b: Books, entries: seq<Entry>, i: nat, now: nat)
    requires i < |entries|
  {
    Fits(PushUpTo(b, entries, i, now), entries[i], now)
  }

  predicate AdmissibleUpTo(b: Books, entries: seq<Entry>, n: nat, now: nat)
    requires n <= |entries|
  {
    n == 0 || (AdmissibleUpTo(b, entries, n - 1, now) && FitsAt(b, entries, n - 1, now))
  }

  predicate Admissible(b: Books, entries: seq<Entry>, now: nat) {
    AdmissibleUpTo(b, entries, |entries|, now)
  }

  predicate FramesValid(pending: Pending) {
    forall k, i :: k in pending && 0 <= i < |pending[k]| ==> pending[k][i].frame.bytes <= MAX_FRAME_BYTES
  }

  /** The plan of the i-th entry of a batch. */
  function PlanAt(b: Books, entries: seq<Entry>, now: nat, i: nat): Plan
    requires i < |entries|
  {
    PlanFor(PushUpTo(b, entries, i, now), entries[i])
  }

  /** The plan a commit of the first n entries leaves behind. */
  function PlansUpTo(b: Books, entries: seq<Entry>, n: nat, now: nat): (plans: seq<Plan>)
    requires n <= |entries|
    ensures |plans| == n
  {
    if n == 0 then [] else PlansUpTo(b, entries, n - 1, now) + [PlanAt(b, entries, now, n - 1)]
  }

  function PlansFor(b: Books, entries: seq<Entry>, now: nat): (plans: seq<Plan>)
    ensures |plans| == |entries|
  {
    PlansUpTo(b, entries, |entries|, now)
  }

  // ---- Compensation -------------------------------------------------------

  predicate SameMessage(f: Frame, g: Frame) {
    f.message == g.message && f.sender == g.sender
  }

  /** The last position holding a frame of the same message, as `rposition` finds it. */
  function LastMatch(q: seq<PendingFrame>, f: Frame): (i: Option<nat>)
    ensures i.Some? ==> i.value < |q| && SameMessage(q[i.value].frame, f)
  {
    if q == [] then None
    else if SameMessage(q[|q| - 1].frame, f) then Some(|q| - 1)
    else LastMatch(q[..|q| - 1], f)
  }

  /** One iteration of the rollback. */
  function UndoOne(b: Books, e: Entry, plan: Plan): Books {
    if plan.key !in b.pending then b
    else
      var q := b.pending[plan.key];
      var i := LastMatch(q, e.frame);
      var removed := if i.Some? then RemoveAt(q, i.value) else q;
      var bytes := if i.Some? then SatSub(b.bytes, q[i.value].frame.bytes) else b.bytes;
      match plan.evicted
      case None => Books(b.pending[plan.key := removed], bytes)
      case Some(evicted) =>
        var at := if plan.evictionIndex.Some? then Min(plan.evictionIndex.value, |removed|) else |removed|;
        Books(b.pending[plan.key := InsertAt(removed, at, evicted)], bytes + evicted.frame.bytes)
  }

  function UndoUpTo(b: Books, entries: seq<Entry>, plans: seq<Plan>, n: nat): Books
    requires n <= |entries| == |plans|
  {
    if n == 0 then b else UndoOne(UndoUpTo(b, entries, plans, n - 1), entries[n - 1], plans[n - 1])
  }

  function DropEmpty(pending: Pending): Pending {
    map k | k in pending && pending[k] != [] :: pending[k]
  }

  /** `rollback_pending_frames` */
  function Rollback(b: Books, entries: seq<Entry>, plans: seq<Plan>): Books
    requires |entries| == |plans|
  {
    var undone := UndoUpTo(b, entries, plans, |entries|);
    undone.(pending := DropEmpty(undone.pending))
  }

  // ---- Expiry -------------------------------------------------------------

  predicate Expired(pf: PendingFrame, now: nat, ttl: nat) {
    SatSub(now, pf.enqueuedAt) >= ttl
  }

  function Live(q: seq<PendingFrame>, now: nat, ttl: nat): (r: seq<PendingFrame>)
    ensures |r| <= |q|
  {
    if q == [] then []
    else
      var rest := Live(q[..|q| - 1], now, ttl);
      var last := q[|q| - 1];
      if Expired(last, now, ttl) then rest else rest + [last]
  }

  function PrunedQueues(pending: Pending, now: nat, ttl: nat): Pending {
    map k | k in pending && Live(pending[k], now, ttl) != [] :: Live(pending[k], now, ttl)
  }

  // ---- The byte counter ---------------------------------------------------

  function Bytes(q: seq<PendingFrame>): nat {
    if q == [] then 0 else Bytes(q[..|q| - 1]) + q[|q| - 1].frame.bytes
  }

  ghost function BytesOf(pending: Pending): nat {
    Total(pending, Bytes)
  }

  /** The counter is the sum over all queues, and no queue is stored empty. */
  ghost predicate Balanced(b: Books) {
    b.bytes == BytesOf(b.pending)
  }

  predicate NoEmptyQueue(pending: Pending) {
    forall k :: k in pending ==> pending[k] != []
  }

  predicate QueuesBounded(pending: Pending) {
    forall k :: k in pending ==> |pending[k]| <= MAX_PENDING_FRAMES
  }

  ghost predicate Queued(pending: Pending, k: PendingKey, pf: PendingFrame) {
    k in pending && pf in pending[k]
  }

  function KeysOf(entries: seq<Entry>): (keys: seq<PendingKey>) {
    seq(|entries|, i requires 0 <= i < |entries| => entries[i].key)
  }

  // ---- Lemmas: expiry -----------------------------------------------------

  lemma {:induction false} LiveMember(q: seq<PendingFrame>, now: nat, ttl: nat, pf: PendingFrame)
    ensures pf in Live(q, now, ttl) <==> pf in q && !Expired(pf, now, ttl)
  {
    if q != [] {
      var n := |q| - 1;
      LiveMember(q[..n], now, ttl, pf);
      assert q == q[..n] + [q[n]];
    }
  }

  lemma LiveSnoc(q: seq<PendingFrame>, last: PendingFrame, now: nat, ttl: nat)
    ensures Live(q + [last], now, ttl)
         == if Expired(last, now, ttl) then Live(q, now, ttl) else Live(q, now, ttl) + [last]
  {
    assert (q + [last])[..|q|] == q;
  }

  lemma {:induction false} LiveAbsorbs(q: seq<PendingFrame>, now: nat, later: nat, ttl: nat)
    requires now <= later
    ensures Live(Live(q, now, ttl), later, ttl) == Live(q, later, ttl)
  {
    if q != [] {
      var n := |q| - 1;
      LiveAbsorbs(q[..n], now, later, ttl);
      LiveSnoc(Live(q[..n], now, ttl), q[n], later, ttl);
    }
  }

  lemma {:induction false} LiveBytes(q: seq<PendingFrame>, now: nat, ttl: nat)
    ensures Bytes(Live(q, now, ttl)) <= Bytes(q)
  {
    if q != [] {
      var n := |q| - 1;
      LiveBytes(q[..n], now, ttl);
      BytesConcat(Live(q[..n], now, ttl), [q[n]]);
    }
  }

  // ---- Lemmas: bytes ------------------------------------------------------

  lemma {:induction false} BytesConcat(p: seq<PendingFrame>, q: seq<PendingFrame>)
    ensures Bytes(p + q) == Bytes(p) + Bytes(q)
  {
    if q == [] {
      assert p + q == p;
    } else {
      var n := |q| - 1;
      assert (p + q)[..|p + q| - 1] == p + q[..n];
      BytesConcat(p, q[..n]);
    }
  }

  lemma {:induction false} BytesRemoveAt(q: seq<PendingFrame>, i: nat)
    requires i < |q|
    ensures Bytes(q) == Bytes(RemoveAt(q, i)) + q[i].frame.bytes
  {
    assert q == q[..i] + [q[i]] + q[i + 1..];
    BytesConcat(q[..i] + [q[i]], q[i + 1..]);
    BytesConcat(q[..i], [q[i]]);
    BytesConcat(q[..i], q[i + 1..]);
  }

  lemma {:induction false} BytesInsertAt(q: seq<PendingFrame>, i: nat, pf: PendingFrame)
    requires i <= |q|
    ensures Bytes(InsertAt(q, i, pf)) == Bytes(q) + pf.frame.bytes
  {
    var r := InsertAt(q, i, pf);
    assert RemoveAt(r, i) == q;
    BytesRemoveAt(r, i);
  }

  lemma BytesAtMostTotal(pending: Pending, k: PendingKey)
    ensures Bytes(QueueOf(pending, k)) <= BytesOf(pending)
  {
    if k in pending { TotalRemove(pending, Bytes, k); }
  }

  /** Replacing one queue moves the total by exactly that queue's difference. */
  lemma BytesOfReplace(pending: Pending, k: PendingKey, q: seq<PendingFrame>)
    ensures BytesOf(pending[k := q]) + Bytes(QueueOf(pending, k)) == BytesOf(pending) + Bytes(q)
  {
    TotalUpdate(pending, Bytes, k, q);
  }

  // ---- Lemmas: one push and its compensation ------------------------------

  lemma PushOneBalanced(b: Books, e: Entry, now: nat)
    requires Balanced(b)
    ensures Balanced(PushOne(b, e, now))
    ensures EvictedBytes(Shape(QueueOf(b.pending, e.key))) <= b.bytes
  {
    var q := QueueOf(b.pending, e.key);
    var i := EvictionIndex(Shape(q));
    var kept := Evict(q, i);
    if i.Some? { BytesRemoveAt(q, i.value); }
    BytesConcat(kept, [PendingFrame(e.frame, now)]);
    BytesOfReplace(b.pending, e.key, kept + [PendingFrame(e.frame, now)]);
    BytesAtMostTotal(b.pending, e.key);
  }

  lemma {:induction false} PushBalanced(b: Books, entries: seq<Entry>, n: nat, now: nat)
    requires n <= |entries| && Balanced(b)
    ensures Balanced(PushUpTo(b, entries, n, now))
  {
    if n > 0 {
      PushBalanced(b, entries, n - 1, now);
      PushOneBalanced(PushUpTo(b, entries, n - 1, now), entries[n - 1], now);
    }
  }

  lemma StepConserves(c: Books, e: Entry, now: nat)
    requires QueuesBounded(c.pending) && Fits(c, e, now)
    ensures QueuesBounded(PushOne(c, e, now).pending)
  {
    var q := QueueOf(c.pending, e.key);
    assert |q| <= MAX_PENDING_FRAMES && |Evict(q, EvictionIndex(Shape(q)))| < MAX_PENDING_FRAMES;
  }

  /**
    Conservation: a committed batch leaves the counter equal to the sum over
    all queues and within the budget, and no queue above its bound.
   */
  lemma {:induction false} CommitConserves(b: Books, entries: seq<Entry>, n: nat, now: nat)
    requires Balanced(b) && b.bytes <= MAX_PENDING_BYTES && QueuesBounded(b.pending)
    requires n <= |entries| && AdmissibleUpTo(b, entries, n, now)
    ensures var c := PushUpTo(b, entries, n, now);
      Balanced(c) && c.bytes <= MAX_PENDING_BYTES && QueuesBounded(c.pending)
  {
    PushBalanced(b, entries, n, now);
    if n > 0 {
      CommitConserves(b, entries, n - 1, now);
      StepConserves(PushUpTo(b, entries, n - 1, now), entries[n - 1], now);
    }
  }

  /** A queued prekey frame survives every commit: eviction only takes ordinary frames. */
  lemma {:induction false} PrekeyFramesSurvive(b: Books, entries: seq<Entry>, n: nat, now: nat,
                                               k: PendingKey, pf: PendingFrame)
    requires n <= |entries| && Queued(b.pending, k, pf) && IsPrekeyFrame(pf.frame)
    ensures Queued(PushUpTo(b, entries, n, now).pending, k, pf)
  {
    if n > 0 {
      PrekeyFramesSurvive(b, entries, n - 1, now, k, pf);
      var q := QueueOf(PushUpTo(b, entries, n - 1, now).pending, entries[n - 1].key);
      if entries[n - 1].key == k {
        var j :| 0 <= j < |q| && q[j] == pf;
        var i := EvictionIndex(Shape(q));
        if i.Some? {
          assert Shape(q)[j].prekey && i.value != j;
          assert RemoveAt(q, i.value)[if j < i.value then j else j - 1] == pf;
        }
      }
    }
  }

  /** Everything queued after a commit was queued before or is one of the committed frames. */
  lemma {:induction false} QueuedAfterPush(b: Books, entries: seq<Entry>, n: nat, now: nat,
                                           k: PendingKey, pf: PendingFrame)
    requires n <= |entries| && Queued(PushUpTo(b, entries, n, now).pending, k, pf)
    ensures Queued(b.pending, k, pf)
         || exists i :: 0 <= i < n && entries[i].key == k && pf == PendingFrame(entries[i].frame, now)
  {
    if n > 0 {
      if Queued(PushUpTo(b, entries, n - 1, now).pending, k, pf) {
        QueuedAfterPush(b, entries, n - 1, now, k, pf);
      } else {
        assert entries[n - 1].key == k;
      }
    }
  }

  // ---- Lemmas: the whole batch, for distinct recipients -------------------

  /** With pairwise distinct keys each queue is pushed at most once. */
  lemma {:induction false} QueueUntouched(b: Books, entries: seq<Entry>, n: nat, now: nat, k: PendingKey)
    requires n <= |entries| && k !in KeysOf(entries)[..n]
    ensures QueueOf(PushUpTo(b, entries, n, now).pending, k) == QueueOf(b.pending, k)
  {
    if n > 0 {
      assert KeysOf(entries)[..n] == KeysOf(entries)[..n - 1] + [entries[n - 1].key];
      QueueUntouched(b, entries, n - 1, now, k);
    }
  }

  lemma {:induction false} QueuePushedOnce(b: Books, entries: seq<Entry>, n: nat, now: nat, i: nat)
    requires i < n <= |entries| && Distinct(KeysOf(entries))
    ensures PushedOnce(b, PushUpTo(b, entries, n, now), entries[i], now)
  {
    var keys := KeysOf(entries);
    if i == n - 1 {
      assert keys[i] !in keys[..i];
      QueueUntouched(b, entries, i, now, entries[i].key);
    } else {
      QueuePushedOnce(b, entries, n - 1, now, i);
      assert keys[i] != keys[n - 1];
    }
  }

  /** `c` is `b` after a batch that pushed this entry once. */
  ghost predicate PushedOnce(b: Books, c: Books, e: Entry, now: nat) {
    var q := QueueOf(b.pending, e.key);
    e.key in c.pending && c.pending[e.key] == Evict(q, EvictionIndex(Shape(q))) + [PendingFrame(e.frame, now)]
  }

  lemma {:induction false} AdmissibleAt(b: Books, entries: seq<Entry>, n: nat, now: nat, i: nat)
    requires i < n <= |entries| && AdmissibleUpTo(b, entries, n, now)
    ensures FitsAt(b, entries, i, now)
  {
    if i < n - 1 { AdmissibleAt(b, entries, n - 1, now, i); }
  }

  lemma {:induction false} PlansUpToAt(b: Books, entries: seq<Entry>, n: nat, now: nat, i: nat)
    requires i < n <= |entries|
    ensures PlansUpTo(b, entries, n, now)[i] == PlanAt(b, entries, now, i)
  {
    if i < n - 1 { PlansUpToAt(b, entries, n - 1, now, i); }
  }

  lemma PlanKeys(b: Books, entries: seq<Entry>, now: nat)
    ensures forall i :: 0 <= i < |entries| ==> PlansFor(b, entries, now)[i].key == entries[i].key
  {
    forall i | 0 <= i < |entries| ensures PlansFor(b, entries, now)[i].key == entries[i].key {
      PlansUpToAt(b, entries, |entries|, now, i);
    }
  }

  /** The plan for the i-th entry can be read off the queues before the commit. */
  lemma PlanIsStable(b: Books, entries: seq<Entry>, now: nat, i: nat)
    requires i < |entries| && Distinct(KeysOf(entries))
    ensures PlansFor(b, entries, now)[i] == PlanFor(b, entries[i])
  {
    assert KeysOf(entries)[i] !in KeysOf(entries)[..i];
    QueueUntouched(b, entries, i, now, entries[i].key);
    PlansUpToAt(b, entries, |entries|, now, i);
  }

  /** Taking back one push restores the queue: order, evicted frame and enqueue times. */
  lemma UndoOneInverts(q: seq<PendingFrame>, e: Entry, now: nat, b: Books)
    requires var i := EvictionIndex(Shape(q));
      e.key in b.pending && b.pending[e.key] == Evict(q, i) + [PendingFrame(e.frame, now)]
    ensures var i := EvictionIndex(Shape(q));
      var plan := Plan(e.key, i, if i.Some? then Some(q[i.value]) else None);
      UndoOne(b, e, plan).pending == b.pending[e.key := q]
  {
    var i := EvictionIndex(Shape(q));
    var kept := Evict(q, i);
    var pushed := kept + [PendingFrame(e.frame, now)];
    assert LastMatch(pushed, e.frame) == Some(|kept|);
    assert RemoveAt(pushed, |kept|) == kept;
    if i.Some? {
      assert InsertAt(kept, i.value, q[i.value]) == q;
    }
  }

  lemma UndoOneBalanced(b: Books, e: Entry, plan: Plan)
    requires Balanced(b)
    ensures Balanced(UndoOne(b, e, plan))
  {
    if plan.key in b.pending {
      var q := b.pending[plan.key];
      var i := LastMatch(q, e.frame);
      var removed := if i.Some? then RemoveAt(q, i.value) else q;
      if i.Some? { BytesRemoveAt(q, i.value); }
      BytesAtMostTotal(b.pending, plan.key);
      BytesOfReplace(b.pending, plan.key, UndoOne(b, e, plan).pending[plan.key]);
      if plan.evicted.Some? {
        var at := if plan.evictionIndex.Some? then Min(plan.evictionIndex.value, |removed|) else |removed|;
        BytesInsertAt(removed, at, plan.evicted.value);
      }
    }
  }

  /** The first n queues are as in `b`, the others as in `c`, and the counter agrees. */
  ghost predicate PartlyUndone(b: Books, c: Books, u: Books, entries: seq<Entry>, n: nat)
    requires n <= |entries|
  {
    && Balanced(u)
    && u.pending.Keys == c.pending.Keys
    && (forall i :: 0 <= i < n ==> QueueOf(u.pending, entries[i].key) == QueueOf(b.pending, entries[i].key))
    && (forall k :: k !in KeysOf(entries)[..n] ==> QueueOf(u.pending, k) == QueueOf(c.pending, k))
  }

  lemma UndoStep(b: Books, c: Books, u: Books, entries: seq<Entry>, now: nat, m: nat)
    requires Distinct(KeysOf(entries)) && m < |entries|
    requires PartlyUndone(b, c, u, entries, m) && PushedOnce(b, c, entries[m], now)
    ensures PartlyUndone(b, c, UndoOne(u, entries[m], PlanFor(b, entries[m])), entries, m + 1)
  {
    var e, keys := entries[m], KeysOf(entries);
    var q := QueueOf(b.pending, e.key);
    assert keys[m] == e.key && e.key !in keys[..m];
    assert u.pending[e.key] == QueueOf(c.pending, e.key);
    UndoOneInverts(q, e, now, u);
    UndoOneBalanced(u, e, PlanFor(b, e));
    ExtendUndone(b, c, u, UndoOne(u, e, PlanFor(b, e)), entries, m);
  }

  lemma ExtendUndone(b: Books, c: Books, u: Books, v: Books, entries: seq<Entry>, m: nat)
    requires m < |entries| && PartlyUndone(b, c, u, entries, m)
    requires Balanced(v) && entries[m].key in u.pending
    requires v.pending == u.pending[entries[m].key := QueueOf(b.pending, entries[m].key)]
    ensures PartlyUndone(b, c, v, entries, m + 1)
  {
    assert KeysOf(entries)[..m + 1] == KeysOf(entries)[..m] + [entries[m].key];
  }

  /** The i-th entry was pushed once on the way from `b` to `c`, under its plan for `b`. */
  ghost predicate Undoable(b: Books, c: Books, entries: seq<Entry>, plans: seq<Plan>, now: nat, i: nat)
    requires i < |entries| == |plans|
  {
    PushedOnce(b, c, entries[i], now) && plans[i] == PlanFor(b, entries[i])
  }

  /** After the first n compensations the first n queues are restored and the rest untouched. */
  lemma {:induction false} UndoPrefix(b: Books, c: Books, entries: seq<Entry>, plans: seq<Plan>, now: nat, n: nat)
    requires Distinct(KeysOf(entries)) && n <= |entries| == |plans| && Balanced(c)
    requires forall i :: 0 <= i < |entries| ==> Undoable(b, c, entries, plans, now, i)
    ensures PartlyUndone(b, c, UndoUpTo(c, entries, plans, n), entries, n)
  {
    if n > 0 {
      UndoPrefix(b, c, entries, plans, now, n - 1);
      assert Undoable(b, c, entries, plans, now, n - 1);
      UndoStep(b, c, UndoUpTo(c, entries, plans, n - 1), entries, now, n - 1);
    }
  }

  /**
    Compensation is exact. For pairwise distinct recipients, rolling back a
    committed batch gives back the very queues and counter from before: order,
    evicted frames, enqueue times, even when older frames of the same message
    are queued.
   */
  lemma RollbackInverts(b: Books, entries: seq<Entry>, now: nat)
    requires Distinct(KeysOf(entries)) && Balanced(b) && NoEmptyQueue(b.pending)
    ensures Rollback(PushAll(b, entries, now), entries, PlansFor(b, entries, now)) == b
  {
    var c, plans := PushAll(b, entries, now), PlansFor(b, entries, now);
    PushBalanced(b, entries, |entries|, now);
    forall i | 0 <= i < |entries| ensures Undoable(b, c, entries, plans, now, i) {
      QueuePushedOnce(b, entries, |entries|, now, i);
      PlanIsStable(b, entries, now, i);
    }
    UndoPrefix(b, c, entries, plans, now, |entries|);
    forall k | k !in KeysOf(entries) ensures QueueOf(c.pending, k) == QueueOf(b.pending, k) {
      assert KeysOf(entries)[..|entries|] == KeysOf(entries);
      QueueUntouched(b, entries, |entries|, now, k);
    }
    FullyUndone(b, c, UndoUpTo(c, entries, plans, |entries|), entries);
  }

  lemma FullyUndone(b: Books, c: Books, u: Books, entries: seq<Entry>)
    requires PartlyUndone(b, c, u, entries, |entries|) && Balanced(b) && NoEmptyQueue(b.pending)
    requires forall k :: k !in KeysOf(entries) ==> QueueOf(c.pending, k) == QueueOf(b.pending, k)
    ensures Books(DropEmpty(u.pending), u.bytes) == b
  {
    var n := |entries|;
    assert KeysOf(entries)[..n] == KeysOf(entries);
    forall k ensures QueueOf(u.pending, k) == QueueOf(b.pending, k) {
      if k in KeysOf(entries) {
        var i :| 0 <= i < n && KeysOf(entries)[i] == k;
        assert entries[i].key == k;
      }
    }
    var r := DropEmpty(u.pending);
    forall k ensures k in r <==> k in b.pending {
      assert QueueOf(u.pending, k) == QueueOf(b.pending, k);
    }
    forall k | k in r ensures r[k] == b.pending[k] {
      assert QueueOf(u.pending, k) == QueueOf(b.pending, k);
    }
    assert r == b.pending;
    DropEmptyKeepsBytes(u.pending);
  }

  lemma DropEmptyKeepsBytes(pending: Pending)
    ensures BytesOf(DropEmpty(pending)) == BytesOf(pending)
  {
    TotalIgnoresZero(pending, DropEmpty(pending), Bytes);
  }
}
