/**
  What an admission is answered, in closed form: when a batch has its place in
  the queues, what the queues hold after it, and the exact condition of each
  outcome.
 */
module AdmissionAnswers {
  import opened Basics
  import opened PendingQueues
  import opened Admission
  import opened Agreement

  // ---- A place in the queues ----------------------------------------------

  /** The oldest frame that is not a prekey frame. */
  predicate OldestOrdinary(q: seq<PendingFrame>, j: nat) {
    j < |q| && !q[j].frame.isPrekey && forall l :: 0 <= l < j ==> q[l].frame.isPrekey
  }

  predicate HasOrdinary(q: seq<PendingFrame>) {
    exists j :: 0 <= j < |q| && !q[j].frame.isPrekey
  }

  /** A queue has a place if it is not full or an ordinary frame can make room. */
  predicate HasPlace(q: seq<PendingFrame>) {
    |q| < MAX_PENDING_FRAMES || HasOrdinary(q)
  }

  /** The queue with the frame that makes room removed, if it has to. */
  ghost function WithPlace(q: seq<PendingFrame>): (r: seq<PendingFrame>) {
    if |q| >= MAX_PENDING_FRAMES && exists j: nat :: OldestOrdinary(q, j) then
      var j: nat :| OldestOrdinary(q, j); q[..j] + q[j + 1..]
    else q
  }

  ghost function Freed(q: seq<PendingFrame>): nat {
    if |q| >= MAX_PENDING_FRAMES && exists j: nat :: OldestOrdinary(q, j) then
      var j: nat :| OldestOrdinary(q, j); q[j].frame.bytes
    else 0
  }

  predicate WellMarked(q: seq<PendingFrame>) {
    forall j :: 0 <= j < |q| ==> (q[j].frame.isPrekey <==> q[j].frame.prekeyId != "")
  }

  lemma QueueWellMarked(b: Books, k: PendingKey)
    requires Sound(b)
    ensures WellMarked(QueueOf(b.pending, k))
  {
    var q := QueueOf(b.pending, k);
    forall j | 0 <= j < |q| ensures q[j].frame.isPrekey <==> q[j].frame.prekeyId != "" {
      assert Queued(b.pending, k, q[j]);
      assert FrameWellFormed(k, q[j]);
    }
  }

  /** The eviction of the commit, told without its simulation. */
  lemma EvictionInWords(q: seq<PendingFrame>)
    requires WellMarked(q)
    ensures HasRoom(Shape(q)) <==> HasPlace(q)
    ensures Evict(q, EvictionIndex(Shape(q))) == WithPlace(q)
    ensures EvictedBytes(Shape(q)) == Freed(q)
  {
    var s := Shape(q);
    var i := FirstOrdinary(s);
    forall l | 0 <= l < i ensures q[l].frame.isPrekey {
      OnlyPrekeysBefore(s, l);
      assert s[l].prekey;
    }
    if i < |q| {
      assert !s[i].prekey;
      assert OldestOrdinary(q, i);
      assert forall j: nat :: OldestOrdinary(q, j) ==> j == i;
      assert RemoveAt(q, i) == q[..i] + q[i + 1..];
      assert s[i] == SlotOf(q[i]);
    }
  }

  // ---- The batch ----------------------------------------------------------

  function KeyAt(m: Message, i: nat): PendingKey
    requires i < |m.deliveries|
  {
    PendingKey(m.deliveries[i].frame.chat, m.deliveries[i].recipient)
  }

  /** The bytes once the first n frames are queued and what made room for them is gone. */
  ghost function BytesAfter(b: Books, m: Message, n: nat): int
    requires n <= |m.deliveries|
  {
    if n == 0 then b.bytes
    else BytesAfter(b, m, n - 1) + m.deliveries[n - 1].frame.bytes - Freed(QueueOf(b.pending, KeyAt(m, n - 1)))
  }

  /** The i-th frame finds a place of its size. */
  ghost predicate Placed(b: Books, m: Message, i: nat)
    requires i < |m.deliveries|
  {
    && HasPlace(QueueOf(b.pending, KeyAt(m, i))) && m.deliveries[i].frame.bytes <= MAX_FRAME_BYTES
    && BytesAfter(b, m, i + 1) <= MAX_PENDING_BYTES
  }

  lemma QueueUnpushed(b: Books, m: Message, now: nat, i: nat)
    requires Prepared(m) && i < |m.deliveries|
    ensures QueueOf(PushUpTo(b, EntriesOf(m), i, now).pending, KeyAt(m, i)) == QueueOf(b.pending, KeyAt(m, i))
  {
    var entries := EntriesOf(m);
    var keys := KeysOf(entries);
    assert keys[i] == KeyAt(m, i) && keys[i] !in keys[..i];
    QueueUntouched(b, entries, i, now, KeyAt(m, i));
  }

  lemma {:induction false} PushedBytes(b: Books, m: Message, now: nat, n: nat)
    requires Sound(b) && Prepared(m) && n <= |m.deliveries|
    ensures PushUpTo(b, EntriesOf(m), n, now).bytes == BytesAfter(b, m, n)
  {
    if n > 0 {
      PushedBytes(b, m, now, n - 1);
      NextBytes(b, m, now, n - 1);
    }
  }

  lemma NextBytes(b: Books, m: Message, now: nat, i: nat)
    requires Sound(b) && Prepared(m) && i < |m.deliveries|
    ensures var entries := EntriesOf(m);
      PushUpTo(b, entries, i + 1, now).bytes
      == PushUpTo(b, entries, i, now).bytes + m.deliveries[i].frame.bytes - Freed(QueueOf(b.pending, KeyAt(m, i)))
  {
    var entries := EntriesOf(m);
    assert entries[i] == Entry(KeyAt(m, i), m.deliveries[i].frame);
    QueueUnpushed(b, m, now, i);
    QueueWellMarked(b, KeyAt(m, i));
    EvictionInWords(QueueOf(b.pending, KeyAt(m, i)));
    FreedIsThere(b, entries, i, now, KeyAt(m, i));
  }

  /** What is evicted was counted. */
  lemma FreedIsThere(b: Books, entries: seq<Entry>, n: nat, now: nat, k: PendingKey)
    requires Sound(b) && n <= |entries|
    ensures var c := PushUpTo(b, entries, n, now); EvictedBytes(Shape(QueueOf(c.pending, k))) <= c.bytes
  {
    var c := PushUpTo(b, entries, n, now);
    PushBalanced(b, entries, n, now);
    var q := QueueOf(c.pending, k);
    var i := EvictionIndex(Shape(q));
    if i.Some? {
      BytesRemoveAt(q, i.value);
      BytesAtMostTotal(c.pending, k);
    }
  }

  lemma {:induction false} AdmissiblePrefix(b: Books, m: Message, now: nat, n: nat)
    requires Sound(b) && Prepared(m) && n <= |m.deliveries|
    ensures AdmissibleUpTo(b, EntriesOf(m), n, now) <==> forall i :: 0 <= i < n ==> Placed(b, m, i)
  {
    if n > 0 {
      AdmissiblePrefix(b, m, now, n - 1);
      FitsIsPlaced(b, m, now, n - 1);
    }
  }

  lemma FitsIsPlaced(b: Books, m: Message, now: nat, i: nat)
    requires Sound(b) && Prepared(m) && i < |m.deliveries|
    ensures FitsAt(b, EntriesOf(m), i, now) <==> Placed(b, m, i)
  {
    QueueUnpushed(b, m, now, i);
    QueueWellMarked(b, KeyAt(m, i));
    EvictionInWords(QueueOf(b.pending, KeyAt(m, i)));
    PushedBytes(b, m, now, i + 1);
  }

  /** A batch can be queued exactly when each of its frames finds a place of its size. */
  lemma AdmissibleIff(b: Books, m: Message, now: nat)
    requires Sound(b) && Prepared(m)
    ensures Admissible(b, EntriesOf(m), now) <==>
            forall i :: 0 <= i < |m.deliveries| ==> Placed(b, m, i)
  {
    AdmissiblePrefix(b, m, now, |m.deliveries|);
  }

  /** After a batch each recipient's queue has made room and ends with the new frame; no other queue changed. */
  lemma QueuesAfterBatch(b: Books, m: Message, now: nat, k: PendingKey)
    requires Sound(b) && Prepared(m)
    ensures var q, r := QueueOf(b.pending, k), QueueOf(PushAll(b, EntriesOf(m), now).pending, k);
      && (forall i :: 0 <= i < |m.deliveries| && KeyAt(m, i) == k ==>
            r == WithPlace(q) + [PendingFrame(m.deliveries[i].frame, now)])
      && ((forall i :: 0 <= i < |m.deliveries| ==> KeyAt(m, i) != k) ==> r == q)
    ensures PushAll(b, EntriesOf(m), now).bytes == BytesAfter(b, m, |m.deliveries|)
  {
    var entries := EntriesOf(m);
    PushedBytes(b, m, now, |m.deliveries|);
    forall i | 0 <= i < |m.deliveries| && KeyAt(m, i) == k
      ensures QueueOf(PushAll(b, entries, now).pending, k)
           == WithPlace(QueueOf(b.pending, k)) + [PendingFrame(m.deliveries[i].frame, now)]
    {
      QueuePushedOnce(b, entries, |entries|, now, i);
      QueueWellMarked(b, k);
      EvictionInWords(QueueOf(b.pending, k));
    }
    if forall i :: 0 <= i < |m.deliveries| ==> KeyAt(m, i) != k {
      var keys := KeysOf(entries);
      assert keys[..|entries|] == keys;
      assert forall i :: 0 <= i < |keys| ==> keys[i] == KeyAt(m, i);
      QueueUntouched(b, entries, |entries|, now, k);
    }
  }

  // ---- The size of a message ----------------------------------------------

  function FrameTotal(ds: seq<Delivery>): nat {
    if ds == [] then 0 else ds[0].frame.bytes + FrameTotal(ds[1..])
  }

  function NameTotal(ds: seq<Delivery>): nat {
    if ds == [] then 0 else |ds[0].recipient| + NameTotal(ds[1..])
  }

  lemma {:induction false} TotalsSnoc(ds: seq<Delivery>, d: Delivery)
    ensures FrameTotal(ds + [d]) == FrameTotal(ds) + d.frame.bytes
    ensures NameTotal(ds + [d]) == NameTotal(ds) + |d.recipient|
  {
    if ds != [] {
      assert (ds + [d])[1..] == ds[1..] + [d];
      TotalsSnoc(ds[1..], d);
    }
  }

  lemma {:induction false} FanoutIsTotal(ds: seq<Delivery>, n: nat)
    requires n <= |ds|
    ensures FanoutBytes(ds, n) == FrameTotal(ds[..n]) + NameTotal(ds[..n])
  {
    if n > 0 {
      FanoutIsTotal(ds, n - 1);
      assert ds[..n] == ds[..n - 1] + [ds[n - 1]];
      TotalsSnoc(ds[..n - 1], ds[n - 1]);
    }
  }

  predicate Sendable(m: Message) {
    && FrameTotal(m.deliveries) + NameTotal(m.deliveries) <= MAX_TRANSIENT_FANOUT_BYTES
    && forall i :: 0 <= i < |m.deliveries| ==> m.deliveries[i].frame.bytes <= MAX_FRAME_BYTES
  }

  // ---- Leases and replay ids ----------------------------------------------

  /** The lease of exactly this delivery. */
  ghost predicate Backed(s: State, d: Delivery) {
    exists lk :: lk in s.leases && Backs(s, lk, d)
  }

  predicate Backs(s: State, lk: LeaseKey, d: Delivery)
    requires lk in s.leases
  {
    var f, lease := d.frame, s.leases[lk];
    && lk.prekey == f.prekeyId && IsCodeOf(s.accounts, lk.code, d.recipient)
    && lease == Lease(f.chat, f.message, f.sender, d.recipient, lease.createdAt)
  }

  lemma HeldIsBacked(s: State, d: Delivery)
    requires LeasesInPool(s.leases, s.accounts)
    ensures LeaseHeld(s.leases, s.accounts, d) <==> Backed(s, d)
  {
    if LeaseHeld(s.leases, s.accounts, d) {
      HeldIffCovered(s.leases, s.accounts, d);
      var k := PendingKey(d.frame.chat, d.recipient);
      var code :| CoveredBy(s.leases, s.accounts, code, k, d.frame);
      assert Backs(s, LeaseKey(code, d.frame.prekeyId), d);
    }
    if Backed(s, d) {
      var lk :| lk in s.leases && Backs(s, lk, d);
      assert lk == LeaseKey(lk.code, d.frame.prekeyId) && lk.code in s.accounts;
    }
  }

  /** The id was registered less than a replay window ago. */
  predicate Remembered(ids: ReplayIds, key: ReplayKey, now: nat) {
    key in ids && now < ids[key] + REPLAY_WINDOW_MS
  }

  function RememberedIds(ids: ReplayIds, now: nat): set<ReplayKey> {
    set k | k in ids && Remembered(ids, k, now)
  }

  predicate Registrable(ids: ReplayIds, key: ReplayKey, now: nat) {
    && !Remembered(ids, key, now) && |RememberedIds(ids, now)| < MAX_REPLAY_IDS
    && |set k | k in RememberedIds(ids, now) && k.sender == key.sender| < MAX_REPLAY_IDS_PER_SENDER
  }

  lemma RegistrableIff(ids: ReplayIds, key: ReplayKey, now: nat)
    ensures CanRegister(ids, key, now) <==> Registrable(ids, key, now)
  {
    var live := LiveReplayIds(ids, now);
    assert live.Keys == RememberedIds(ids, now);
    assert |live| == |live.Keys|;
    assert SenderIds(live, key.sender) == set k | k in RememberedIds(ids, now) && k.sender == key.sender;
  }

  // ---- The outcome --------------------------------------------------------

  ghost predicate AllBacked(s: State, m: Message) {
    forall i :: 0 <= i < |m.deliveries| && m.deliveries[i].frame.isPrekey ==> Backed(s, m.deliveries[i])
  }

  ghost predicate AllPlaced(b: Books, m: Message) {
    forall i :: 0 <= i < |m.deliveries| ==> Placed(b, m, i)
  }

  predicate StateAccepted(s: State, m: Message) {
    m.senderCode in s.accounts && Applied(s.accounts[m.senderCode], m.update, false, None).Some?
  }

  lemma BooksValid(b: Books)
    requires Sound(b)
    ensures FramesValid(b.pending)
  {
    forall k, i | k in b.pending && 0 <= i < |b.pending[k]| ensures b.pending[k][i].frame.bytes <= MAX_FRAME_BYTES {
      assert Queued(b.pending, k, b.pending[k][i]);
      assert FrameWellFormed(k, b.pending[k][i]);
    }
  }

  /** Each outcome of an admission with its exact condition, in the order of the checks. */
  lemma OutcomeIff(s: State, m: Message, c: Clock, ttl: nat)
    requires Orderly(s) && Prepared(m)
    ensures var s1, s2 := Admitting(s, c, ttl), Ready(s, c, ttl);
      RouteOutcome(s, m, c, ttl)
      == if !AllBacked(s1, m) then NoLease
         else if !Sendable(m) then FanoutFull
         else if !AllPlaced(s2.books, m) then QueueFull
         else if !Registrable(s.replayIds, ReplayKey(m.chat, m.sender, m.message), c.register) then ReplayRejected
         else if !StateAccepted(s, m) then IdentityRejected
         else Admitted
  {
    var s1, s2 := Admitting(s, c, ttl), Ready(s, c, ttl);
    ReadyAgrees(s, c, ttl);
    AllHeldIsBacked(s1, m);
    FitsIsSendable(m);
    BooksValid(s2.books);
    AdmissibleIff(s2.books, m, c.commit);
    RegistrableIff(s.replayIds, ReplayKey(m.chat, m.sender, m.message), c.register);
  }

  lemma AllHeldIsBacked(s: State, m: Message)
    requires LeasesInPool(s.leases, s.accounts)
    ensures LeasesHeld(s.leases, s.accounts, m.deliveries) <==> AllBacked(s, m)
  {
    forall i | 0 <= i < |m.deliveries|
      ensures LeaseHeld(s.leases, s.accounts, m.deliveries[i]) <==> Backed(s, m.deliveries[i])
    {
      HeldIsBacked(s, m.deliveries[i]);
    }
  }

  lemma FitsIsSendable(m: Message)
    ensures FanoutFits(m.deliveries) <==> Sendable(m)
  {
    assert m.deliveries[..|m.deliveries|] == m.deliveries;
    FanoutIsTotal(m.deliveries, |m.deliveries|);
  }

  /** A refusal changes no account, and beyond what expired at the readings taken nothing else. */
  lemma RefusedChanges(s: State, m: Message, c: Clock, ttl: nat)
    requires RouteOutcome(s, m, c, ttl) != Admitted
    ensures var o, t := RouteOutcome(s, m, c, ttl), Routed(s, m, c, ttl);
      var swept := if o == NoLease || o == FanoutFull then Admitting(s, c, ttl) else Ready(s, c, ttl);
      && t.accounts == s.accounts && t.books == swept.books && t.leases == swept.leases
      && (o != ReplayRejected && o != IdentityRejected ==> t.replayIds == s.replayIds)
      && (o == ReplayRejected || o == IdentityRejected ==>
            t.replayIds.Keys == RememberedIds(s.replayIds, c.register)
            && forall k :: k in t.replayIds ==> t.replayIds[k] == s.replayIds[k])
  {
  }

  /** What an admitted message changes, table by table. */
  lemma AdmittedChanges(s: State, m: Message, c: Clock, ttl: nat)
    requires Orderly(s) && Prepared(m) && RouteOutcome(s, m, c, ttl) == Admitted
    ensures var ready, t := Ready(s, c, ttl), Routed(s, m, c, ttl);
      var key := ReplayKey(m.chat, m.sender, m.message);
      && t.books == PushAll(ready.books, EntriesOf(m), c.commit) && t.leases == ready.leases
      && t.replayIds.Keys == RememberedIds(s.replayIds, c.register) + {key}
      && (forall k :: k in t.replayIds ==> t.replayIds[k] == if k == key then c.register else s.replayIds[k])
      && t.accounts.Keys == s.accounts.Keys
      && (forall code :: code in s.accounts && code != m.senderCode ==> t.accounts[code] == s.accounts[code])
      && Applied(s.accounts[m.senderCode], m.update, false, None) == Some(t.accounts[m.senderCode])
  {
    AdmittedOrderly(s, m, c, ttl);
    ConcludedChanges(Ready(s, c, ttl), m, c);
  }

  lemma ConcludedChanges(s: State, m: Message, c: Clock)
    requires ConcludedOutcome(s, m, c) == Admitted
    ensures var t, key := Concluded(s, m, c), ReplayKey(m.chat, m.sender, m.message);
      && t.replayIds.Keys == RememberedIds(s.replayIds, c.register) + {key}
      && (forall k :: k in t.replayIds ==> t.replayIds[k] == if k == key then c.register else s.replayIds[k])
      && t.accounts.Keys == s.accounts.Keys
      && (forall code :: code in s.accounts && code != m.senderCode ==> t.accounts[code] == s.accounts[code])
      && Applied(s.accounts[m.senderCode], m.update, false, None) == Some(t.accounts[m.senderCode])
  {
  }

  // ---- Releasing ----------------------------------------------------------

  /** A lease can be released exactly by its own request while no queued frame was prepared under it. */
  lemma ReleaseIff(s: State, r: Request, id: Name)
    requires Orderly(s)
    ensures CanRelease(s, r, id) <==>
            exists code :: IsCodeOf(s.accounts, code, r.recipient) && Releasable(s, LeaseKey(code, id), r)
    ensures forall lk :: lk in LeaseReleased(s, r, id).leases <==>
            lk in s.leases && !(CanRelease(s, r, id) && lk.prekey == id && IsCodeOf(s.accounts, lk.code, r.recipient))
  {
    if Known(s.accounts, r.recipient) {
      var code := CodeOf(s.accounts, r.recipient);
      assert forall other :: IsCodeOf(s.accounts, other, r.recipient) ==> other == code;
    }
  }

  ghost predicate Releasable(s: State, lk: LeaseKey, r: Request) {
    && lk in s.leases && s.leases[lk] == Lease(r.chat, r.message, r.sender, r.recipient, s.leases[lk].createdAt)
    && forall k, pf :: Queued(s.books.pending, k, pf) && k.recipient == r.recipient ==>
         !(pf.frame.isPrekey && pf.frame.prekeyId == lk.prekey && pf.frame.chat == r.chat
           && pf.frame.message == r.message && pf.frame.sender == r.sender)
  }
}
