/**
  What each operation on the four tables of the admission transaction keeps.
  Orderly tables: the byte counter is the sum over bounded queues, and leases
  name prekeys of their recipient's current pool. Agreeing tables: moreover
  every queued prekey frame is covered by a lease, and frames under one lease
  are equally old. That is what it takes for coverage to outlast every sweep.
 */
module Agreement {
  import opened Basics
  import opened Totals
  import opened PendingQueues
  import opened Admission
  import RevisionWindow

  ghost predicate FrameWellFormed(k: PendingKey, pf: PendingFrame) {
    && pf.frame.bytes <= MAX_FRAME_BYTES
    && pf.frame.chat == k.chat
    && (pf.frame.isPrekey <==> pf.frame.prekeyId != "")
  }

  ghost predicate Sound(b: Books) {
    && Balanced(b) && b.bytes <= MAX_PENDING_BYTES
    && NoEmptyQueue(b.pending) && QueuesBounded(b.pending)
    && (forall k, pf :: Queued(b.pending, k, pf) ==> FrameWellFormed(k, pf))
  }

  ghost predicate AccountsCanonical(accounts: Accounts) {
    && UniqueNames(accounts)
    && (forall c :: c in accounts ==> Canonical(accounts[c].identity))
  }

  /** Every lease names a prekey of its recipient's current pool. */
  ghost predicate LeasesInPool(leases: Leases, accounts: Accounts) {
    forall lk :: lk in leases ==>
      && IsCodeOf(accounts, lk.code, leases[lk].recipient)
      && lk.prekey in accounts[lk.code].identity.pool
  }

  /** A lease with this frame's exact chat, message, sender and recipient exists. */
  ghost predicate CoveredBy(leases: Leases, accounts: Accounts, code: CodeId, k: PendingKey, f: Frame) {
    var lk := LeaseKey(code, f.prekeyId);
    IsCodeOf(accounts, code, k.recipient) && lk in leases
    && LeaseFor(leases[lk], f.chat, f.message, f.sender, k.recipient)
  }

  ghost predicate Covered(leases: Leases, accounts: Accounts, k: PendingKey, f: Frame) {
    exists code :: CoveredBy(leases, accounts, code, k, f)
  }

  ghost predicate FramesCovered(s: State) {
    forall k, pf :: Queued(s.books.pending, k, pf) && pf.frame.isPrekey ==>
      Covered(s.leases, s.accounts, k, pf.frame)
  }

  ghost predicate QueuedPrekey(pending: Pending, k: PendingKey, pf: PendingFrame) {
    Queued(pending, k, pf) && pf.frame.isPrekey
  }

  /** Two prekey frames under one lease: the expiry of either releases the lease of both. */
  predicate ShareLease(f: Frame, g: Frame) {
    ReplayKeyOf(f) == ReplayKeyOf(g) && f.prekeyId == g.prekeyId
  }

  /** Queued prekey frames under one lease are equally old, so that they expire together. */
  ghost predicate LeaseAges(pending: Pending) {
    forall k, pf, l, pg ::
      QueuedPrekey(pending, k, pf) && QueuedPrekey(pending, l, pg) && ShareLease(pf.frame, pg.frame)
      ==> pf.enqueuedAt == pg.enqueuedAt
  }

  /** What every operation keeps, whatever the clock readings are. */
  ghost predicate Orderly(s: State) {
    && Sound(s.books)
    && AccountsCanonical(s.accounts)
    && LeasesInPool(s.leases, s.accounts)
  }

  ghost predicate Agrees(s: State) {
    Orderly(s) && FramesCovered(s) && LeaseAges(s.books.pending)
  }

  // ---- Expiry -------------------------------------------------------------

  lemma PrunedQueued(pending: Pending, now: nat, ttl: nat, k: PendingKey, pf: PendingFrame)
    ensures Queued(PrunedQueues(pending, now, ttl), k, pf) <==>
            Queued(pending, k, pf) && !Expired(pf, now, ttl)
  {
    if k in pending { LiveMember(pending[k], now, ttl, pf); }
  }

  lemma PrunedSound(b: Books, now: nat, ttl: nat)
    requires Sound(b)
    ensures var live := PrunedQueues(b.pending, now, ttl); Sound(Books(live, BytesOf(live)))
  {
    var live := PrunedQueues(b.pending, now, ttl);
    forall k | k in live ensures Bytes(live[k]) <= Bytes(b.pending[k]) {
      LiveBytes(b.pending[k], now, ttl);
    }
    TotalMonotone(b.pending, live, Bytes);
    forall k, pf | Queued(live, k, pf) ensures FrameWellFormed(k, pf) {
      PrunedQueued(b.pending, now, ttl, k, pf);
    }
  }

  lemma UsedLeaseStays(pending: Pending, k: PendingKey, pf: PendingFrame, lk: LeaseKey, lease: Lease)
    requires Queued(pending, k, pf) && k.recipient == lease.recipient && Carries(pf.frame, lk, lease)
    ensures InUse(pending, lk, lease)
  {
    var i :| 0 <= i < |pending[k]| && pending[k][i] == pf;
  }

  /** At this reading one frame under a lease expires and another one stays. */
  ghost predicate Tears(pending: Pending, now: nat, ttl: nat) {
    exists k, pf, l, pg ::
      && QueuedPrekey(pending, k, pf) && QueuedPrekey(pending, l, pg) && ShareLease(pf.frame, pg.frame)
      && Expired(pf, now, ttl) && !Expired(pg, now, ttl)
  }

  /** A lease that a live frame relies on is neither released by an expiring frame nor pruned. */
  lemma CoverSurvivesPrune(s: State, now: nat, ttl: nat, code: CodeId, k: PendingKey, pf: PendingFrame)
    requires !Tears(s.books.pending, now, ttl)
    requires QueuedPrekey(s.books.pending, k, pf) && !Expired(pf, now, ttl)
    requires CoveredBy(s.leases, s.accounts, code, k, pf.frame)
    ensures CoveredBy(Prune(s, now, ttl).leases, s.accounts, code, k, pf.frame)
  {
    var pending: Pending := s.books.pending;
    var lk := LeaseKey(code, pf.frame.prekeyId);
    var lease := s.leases[lk];
    forall l: PendingKey, i: int | l in pending && 0 <= i < |pending[l]| && Carries(pending[l][i].frame, lk, lease)
      ensures !Expired(pending[l][i], now, ttl)
    {
      assert QueuedPrekey(pending, l, pending[l][i]);
      assert ShareLease(pending[l][i].frame, pf.frame);
    }
    PrunedQueued(pending, now, ttl, k, pf);
    UsedLeaseStays(PrunedQueues(pending, now, ttl), k, pf, lk, lease);
  }

  /** The expiry of one frame takes the lease from every frame that shares it. */
  lemma TornUncovers(s: State, now: nat, ttl: nat, k: PendingKey, pf: PendingFrame, l: PendingKey, pg: PendingFrame)
    requires QueuedPrekey(s.books.pending, k, pf) && IsPrekeyFrame(pf.frame) && Expired(pf, now, ttl)
    requires ShareLease(pf.frame, pg.frame)
    ensures !Covered(Prune(s, now, ttl).leases, s.accounts, l, pg.frame)
  {
    var pending: Pending := s.books.pending;
    var left := Prune(s, now, ttl).leases;
    forall code ensures !CoveredBy(left, s.accounts, code, l, pg.frame) {
      var lk := LeaseKey(code, pg.frame.prekeyId);
      if lk in s.leases && Carries(pf.frame, lk, s.leases[lk]) {
        var i :| 0 <= i < |pending[k]| && pending[k][i] == pf;
        assert Released(pending, now, ttl, lk, s.leases[lk]);
      }
    }
  }

  /** A sweep of covered tables uncovers a frame exactly when it tears a lease. */
  lemma SweepCovers(s: State, now: nat, ttl: nat)
    requires Orderly(s) && FramesCovered(s)
    ensures FramesCovered(Prune(s, now, ttl)) <==> !Tears(s.books.pending, now, ttl)
  {
    var t := Prune(s, now, ttl);
    if !Tears(s.books.pending, now, ttl) {
      forall k, pf | Queued(t.books.pending, k, pf) && pf.frame.isPrekey
        ensures Covered(t.leases, t.accounts, k, pf.frame)
      {
        PrunedQueued(s.books.pending, now, ttl, k, pf);
        var code :| CoveredBy(s.leases, s.accounts, code, k, pf.frame);
        CoverSurvivesPrune(s, now, ttl, code, k, pf);
      }
    } else {
      var k, pf, l, pg :|
        && QueuedPrekey(s.books.pending, k, pf) && QueuedPrekey(s.books.pending, l, pg)
        && ShareLease(pf.frame, pg.frame) && Expired(pf, now, ttl) && !Expired(pg, now, ttl);
      assert FrameWellFormed(k, pf);
      PrunedQueued(s.books.pending, now, ttl, l, pg);
      TornUncovers(s, now, ttl, k, pf, l, pg);
    }
  }

  /** Some reading tears a lease exactly when the ages of its frames differ. */
  lemma AgesTear(pending: Pending, ttl: nat)
    ensures LeaseAges(pending) ==> forall now :: !Tears(pending, now, ttl)
    ensures 0 < ttl && !LeaseAges(pending) ==> exists now :: Tears(pending, now, ttl)
  {
    if 0 < ttl && !LeaseAges(pending) {
      var k, pf, l, pg :|
        && QueuedPrekey(pending, k, pf) && QueuedPrekey(pending, l, pg)
        && ShareLease(pf.frame, pg.frame) && pf.enqueuedAt < pg.enqueuedAt;
      assert Tears(pending, pf.enqueuedAt + ttl, ttl);
    }
  }

  /** Every queued prekey frame is covered now and stays covered until it expires, whenever sweeps come. */
  ghost predicate StaysCovered(s: State, ttl: nat) {
    forall now: nat :: FramesCovered(Prune(s, now, ttl))
  }

  /** A sweep at which nothing expires drops leases only. */
  lemma CoveredBefore(s: State, ttl: nat)
    requires 0 < ttl && FramesCovered(Prune(s, 0, ttl))
    ensures FramesCovered(s)
  {
    var t := Prune(s, 0, ttl);
    forall k, pf | Queued(s.books.pending, k, pf) && pf.frame.isPrekey
      ensures Covered(s.leases, s.accounts, k, pf.frame)
    {
      PrunedQueued(s.books.pending, 0, ttl, k, pf);
      var code :| CoveredBy(t.leases, t.accounts, code, k, pf.frame);
      assert CoveredBy(s.leases, s.accounts, code, k, pf.frame);
    }
  }

  /** Coverage lasts exactly when every frame is covered and frames under one lease are equally old. */
  lemma StaysCoveredIff(s: State, ttl: nat)
    requires Orderly(s)
    ensures FramesCovered(s) && LeaseAges(s.books.pending) ==> StaysCovered(s, ttl)
    ensures 0 < ttl && StaysCovered(s, ttl) ==> FramesCovered(s) && LeaseAges(s.books.pending)
  {
    AgesTear(s.books.pending, ttl);
    if FramesCovered(s) && LeaseAges(s.books.pending) {
      forall now: nat ensures FramesCovered(Prune(s, now, ttl)) {
        SweepCovers(s, now, ttl);
      }
    }
    if 0 < ttl && StaysCovered(s, ttl) {
      CoveredBefore(s, ttl);
      if !LeaseAges(s.books.pending) {
        var now: nat :| Tears(s.books.pending, now, ttl);
        SweepCovers(s, now, ttl);
      }
    }
  }

  lemma FewerFramesAgree(p: Pending, q: Pending)
    requires LeaseAges(p)
    requires forall k, pf :: Queued(q, k, pf) ==> Queued(p, k, pf)
    ensures LeaseAges(q)
  {
    assert forall k, pf :: QueuedPrekey(q, k, pf) ==> QueuedPrekey(p, k, pf);
  }

  lemma PruneOrderly(s: State, now: nat, ttl: nat)
    requires Orderly(s)
    ensures Orderly(Prune(s, now, ttl))
  {
    PrunedSound(s.books, now, ttl);
  }

  lemma PruneAgrees(s: State, now: nat, ttl: nat)
    requires Agrees(s)
    ensures Agrees(Prune(s, now, ttl))
  {
    var t := Prune(s, now, ttl);
    PruneOrderly(s, now, ttl);
    forall k, pf ensures Queued(t.books.pending, k, pf) <==>
                         Queued(s.books.pending, k, pf) && !Expired(pf, now, ttl)
    {
      PrunedQueued(s.books.pending, now, ttl, k, pf);
    }
    AgesTear(s.books.pending, ttl);
    SweepCovers(s, now, ttl);
    FewerFramesAgree(s.books.pending, t.books.pending);
  }

  /** Dropping stale leases that no queued frame uses uncovers nothing. */
  lemma PrunedLeasesAgree(s: State, now: nat)
    requires Orderly(s)
    ensures var t := s.(leases := PrunedLeases(s.leases, s.books.pending, now));
      Orderly(t) && (Agrees(s) ==> Agrees(t))
  {
    var left := PrunedLeases(s.leases, s.books.pending, now);
    if Agrees(s) {
      forall k, pf | Queued(s.books.pending, k, pf) && pf.frame.isPrekey
        ensures Covered(left, s.accounts, k, pf.frame)
      {
        var code :| CoveredBy(s.leases, s.accounts, code, k, pf.frame);
        var lk := LeaseKey(code, pf.frame.prekeyId);
        UsedLeaseStays(s.books.pending, k, pf, lk, s.leases[lk]);
        assert CoveredBy(left, s.accounts, code, k, pf.frame);
      }
    }
  }

  // ---- Pruning twice ------------------------------------------------------

  lemma QueuesAbsorb(p: Pending, now: nat, later: nat, ttl: nat)
    requires now <= later
    ensures PrunedQueues(PrunedQueues(p, now, ttl), later, ttl) == PrunedQueues(p, later, ttl)
  {
    var mid, fin := PrunedQueues(p, now, ttl), PrunedQueues(p, later, ttl);
    forall k | k in p ensures Live(Live(p[k], now, ttl), later, ttl) == Live(p[k], later, ttl) {
      LiveAbsorbs(p[k], now, later, ttl);
    }
    forall k | k in fin ensures k in mid {
      assert Live(Live(p[k], now, ttl), later, ttl) != [];
    }
  }

  /** Some queued frame that expires by `now` carries the lease. */
  ghost predicate ReleasedBy(p: Pending, now: nat, ttl: nat, lk: LeaseKey, lease: Lease, k: PendingKey,
                             pf: PendingFrame) {
    Queued(p, k, pf) && Expired(pf, now, ttl) && IsPrekeyFrame(pf.frame) && Carries(pf.frame, lk, lease)
  }

  lemma ReleasedIff(p: Pending, now: nat, ttl: nat, lk: LeaseKey, lease: Lease)
    ensures Released(p, now, ttl, lk, lease) <==> exists k, pf :: ReleasedBy(p, now, ttl, lk, lease, k, pf)
  {
    if Released(p, now, ttl, lk, lease) {
      var k, i :| k in p && 0 <= i < |p[k]| && Expired(p[k][i], now, ttl)
               && IsPrekeyFrame(p[k][i].frame) && Carries(p[k][i].frame, lk, lease);
      assert ReleasedBy(p, now, ttl, lk, lease, k, p[k][i]);
    }
    if exists k, pf :: ReleasedBy(p, now, ttl, lk, lease, k, pf) {
      var k, pf :| ReleasedBy(p, now, ttl, lk, lease, k, pf);
      var i :| 0 <= i < |p[k]| && p[k][i] == pf;
    }
  }

  lemma ReleasedAbsorbs(p: Pending, now: nat, later: nat, ttl: nat, lk: LeaseKey, lease: Lease)
    requires now <= later
    ensures Released(p, later, ttl, lk, lease) <==>
            Released(p, now, ttl, lk, lease) || Released(PrunedQueues(p, now, ttl), later, ttl, lk, lease)
  {
    var mid := PrunedQueues(p, now, ttl);
    ReleasedIff(p, now, ttl, lk, lease);
    ReleasedIff(p, later, ttl, lk, lease);
    ReleasedIff(mid, later, ttl, lk, lease);
    forall k, pf
      ensures ReleasedBy(p, later, ttl, lk, lease, k, pf) <==>
              ReleasedBy(p, now, ttl, lk, lease, k, pf) || ReleasedBy(mid, later, ttl, lk, lease, k, pf)
    {
      PrunedQueued(p, now, ttl, k, pf);
    }
  }

  lemma InUseShrinks(p: Pending, now: nat, ttl: nat, lk: LeaseKey, lease: Lease)
    requires InUse(PrunedQueues(p, now, ttl), lk, lease)
    ensures InUse(p, lk, lease)
  {
    var live: Pending := PrunedQueues(p, now, ttl);
    var k: PendingKey, i: int :| k in live && 0 <= i < |live[k]| && k.recipient == lease.recipient
                               && Carries(live[k][i].frame, lk, lease);
    PrunedQueued(p, now, ttl, k, live[k][i]);
    UsedLeaseStays(p, k, live[k][i], lk, lease);
  }

  ghost predicate LeaseKept(p: Pending, now: nat, ttl: nat, lk: LeaseKey, lease: Lease) {
    !Released(p, now, ttl, lk, lease) && (Fresh(lease, now) || InUse(PrunedQueues(p, now, ttl), lk, lease))
  }

  lemma LeaseAbsorbs(p: Pending, now: nat, later: nat, ttl: nat, lk: LeaseKey, lease: Lease)
    requires now <= later
    ensures LeaseKept(p, later, ttl, lk, lease) <==>
            LeaseKept(p, now, ttl, lk, lease) && LeaseKept(PrunedQueues(p, now, ttl), later, ttl, lk, lease)
  {
    var mid := PrunedQueues(p, now, ttl);
    QueuesAbsorb(p, now, later, ttl);
    ReleasedAbsorbs(p, now, later, ttl, lk, lease);
    if InUse(PrunedQueues(mid, later, ttl), lk, lease) { InUseShrinks(mid, later, ttl, lk, lease); }
  }

  lemma PruneKeepsLease(s: State, now: nat, ttl: nat, lk: LeaseKey)
    ensures var t := Prune(s, now, ttl);
      && (lk in t.leases <==> lk in s.leases && LeaseKept(s.books.pending, now, ttl, lk, s.leases[lk]))
      && (lk in t.leases ==> t.leases[lk] == s.leases[lk])
  {
  }

  lemma SameLeaseKept(s: State, now: nat, later: nat, ttl: nat, lk: LeaseKey)
    requires now <= later
    ensures var one, two := Prune(s, later, ttl).leases, Prune(Prune(s, now, ttl), later, ttl).leases;
      (lk in one <==> lk in two) && (lk in one ==> one[lk] == two[lk])
  {
    PruneKeepsLease(s, now, ttl, lk);
    PruneKeepsLease(s, later, ttl, lk);
    PruneKeepsLease(Prune(s, now, ttl), later, ttl, lk);
    if lk in s.leases { LeaseAbsorbs(s.books.pending, now, later, ttl, lk, s.leases[lk]); }
  }

  /** Pruning at a later reading absorbs pruning at an earlier one. */
  lemma PruneAbsorbs(s: State, now: nat, later: nat, ttl: nat)
    requires now <= later
    ensures Prune(Prune(s, now, ttl), later, ttl) == Prune(s, later, ttl)
  {
    var u, v := Prune(s, later, ttl), Prune(Prune(s, now, ttl), later, ttl);
    assert u.books == v.books by { QueuesAbsorb(s.books.pending, now, later, ttl); }
    forall lk ensures (lk in u.leases <==> lk in v.leases) && (lk in u.leases ==> u.leases[lk] == v.leases[lk]) {
      SameLeaseKept(s, now, later, ttl, lk);
    }
    assert u.leases == v.leases;
  }

  /** Clearing stale leases early changes nothing that a later sweep leaves. */
  lemma StaleClearedEarly(s: State, now: nat, later: nat, ttl: nat)
    requires now <= later
    ensures Prune(s.(leases := PrunedLeases(s.leases, s.books.pending, now)), later, ttl) == Prune(s, later, ttl)
  {
    var t := s.(leases := PrunedLeases(s.leases, s.books.pending, now));
    var u, v := Prune(s, later, ttl), Prune(t, later, ttl);
    forall lk ensures (lk in u.leases <==> lk in v.leases) && (lk in u.leases ==> u.leases[lk] == v.leases[lk]) {
      PruneKeepsLease(s, later, ttl, lk);
      PruneKeepsLease(t, later, ttl, lk);
      if lk in s.leases && InUse(PrunedQueues(s.books.pending, later, ttl), lk, s.leases[lk]) {
        InUseShrinks(s.books.pending, later, ttl, lk, s.leases[lk]);
      }
    }
    assert u.leases == v.leases;
  }

  /** With readings in order, an admission works on tables pruned once, at the dry run's reading. */
  lemma ReadyIsPruned(s: State, c: Clock, ttl: nat)
    requires Monotone(c)
    ensures Ready(s, c, ttl) == Prune(s, c.preflight, ttl)
  {
    StaleClearedEarly(Prune(s, c.sweep, ttl), c.admit, c.preflight, ttl);
    PruneAbsorbs(s, c.sweep, c.preflight, ttl);
  }

  // ---- Identity state -----------------------------------------------------

  /** What any accepted identity state keeps. */
  lemma AppliedKeeps(a: Account, u: Update, allowReuse: bool, consumed: Option<Name>)
    requires Canonical(a.identity) && Applied(a, u, allowReuse, consumed).Some?
    ensures var b := Applied(a, u, allowReuse, consumed).value;
      && b.username == a.username
      && b.identity == u.identity && Canonical(b.identity)
      && b.identity.fingerprint == a.identity.fingerprint
      && PoolTransition(a.identity.pool, b.identity.pool, consumed)
      && b.window.revision >= a.window.revision
  {
  }

  /** Consuming a prekey needs a strictly newer revision and trades one id for one new id. */
  lemma ConsumptionAdvances(a: Account, u: Update, allowReuse: bool, used: Name)
    requires Applied(a, u, allowReuse, Some(used)).Some?
    ensures var b := Applied(a, u, allowReuse, Some(used)).value;
      && u.revision > a.window.revision && b.window.revision == u.revision
      && used in a.identity.pool && used !in b.identity.pool
      && exists added :: added !in a.identity.pool
           && (forall id :: id in b.identity.pool <==> (id in a.identity.pool && id != used) || id == added)
  {
    var removed := Without(a.identity.pool, u.identity.pool);
    var added := Without(u.identity.pool, a.identity.pool);
    assert removed[0] == used && used in removed;
    assert added[0] in added;
    forall id ensures id in u.identity.pool <==> (id in a.identity.pool && id != used) || id == added[0] {
      assert id in removed ==> id == used;
      assert id in added ==> id == added[0];
    }
    assert a.identity != u.identity;
  }

  // ---- Admission ----------------------------------------------------------

  /** The tables of an admission before its commit. */
  lemma ReadyAgrees(s: State, c: Clock, ttl: nat)
    requires Orderly(s)
    ensures Orderly(Admitting(s, c, ttl)) && Orderly(Ready(s, c, ttl))
    ensures Agrees(s) ==> Agrees(Admitting(s, c, ttl)) && Agrees(Ready(s, c, ttl))
  {
    PruneOrderly(s, c.sweep, ttl);
    PrunedLeasesAgree(Prune(s, c.sweep, ttl), c.admit);
    PruneOrderly(Admitting(s, c, ttl), c.preflight, ttl);
    if Agrees(s) {
      PruneAgrees(s, c.sweep, ttl);
      PruneAgrees(Admitting(s, c, ttl), c.preflight, ttl);
    }
  }

  lemma RefusedAgrees(s: State, c: Clock, ttl: nat, o: Outcome)
    requires Orderly(s)
    ensures Orderly(Refused(s, c, ttl, o)) && (Agrees(s) ==> Agrees(Refused(s, c, ttl, o)))
  {
    ReadyAgrees(s, c, ttl);
    var t, s2 := Refused(s, c, ttl, o), Ready(s, c, ttl);
    if t.books == s2.books && t.leases == s2.leases && t.accounts == s2.accounts {
      assert FramesCovered(s2) ==> FramesCovered(t);
    }
  }

  lemma {:induction false} PushNoEmpty(b: Books, entries: seq<Entry>, n: nat, now: nat)
    requires n <= |entries| && NoEmptyQueue(b.pending)
    ensures NoEmptyQueue(PushUpTo(b, entries, n, now).pending)
  {
    if n > 0 { PushNoEmpty(b, entries, n - 1, now); }
  }

  lemma CommittedSound(b: Books, m: Message, now: nat)
    requires Sound(b) && Prepared(m) && Admissible(b, EntriesOf(m), now)
    ensures Sound(PushAll(b, EntriesOf(m), now))
  {
    var entries := EntriesOf(m);
    var c := PushAll(b, entries, now);
    CommitConserves(b, entries, |entries|, now);
    PushNoEmpty(b, entries, |entries|, now);
    forall k, pf | Queued(c.pending, k, pf) ensures FrameWellFormed(k, pf) {
      QueuedAfterPush(b, entries, |entries|, now, k, pf);
      if !Queued(b.pending, k, pf) {
        var i :| 0 <= i < |entries| && entries[i].key == k && pf == PendingFrame(entries[i].frame, now);
        AdmissibleAt(b, entries, |entries|, now, i);
      }
    }
  }

  lemma AccountSwapCovers(leases: Leases, accounts: Accounts, code: CodeId, b: Account)
    requires AccountsCanonical(accounts) && LeasesInPool(leases, accounts) && code in accounts
    requires b.username == accounts[code].username && Canonical(b.identity)
    requires forall lk :: lk in leases && lk.code == code ==> lk.prekey in b.identity.pool
    ensures AccountsCanonical(accounts[code := b]) && LeasesInPool(leases, accounts[code := b])
    ensures forall k, f :: Covered(leases, accounts, k, f) <==> Covered(leases, accounts[code := b], k, f)
  {
    var next := accounts[code := b];
    forall k, f ensures Covered(leases, accounts, k, f) <==> Covered(leases, next, k, f) {
      assert forall c :: CoveredBy(leases, accounts, c, k, f) <==> CoveredBy(leases, next, c, k, f);
    }
  }

  /** Exactly the recipients whose lease is still held get a covered frame. */
  lemma HeldIffCovered(leases: Leases, accounts: Accounts, d: Delivery)
    requires LeasesInPool(leases, accounts)
    ensures LeaseHeld(leases, accounts, d) <==>
            Covered(leases, accounts, PendingKey(d.frame.chat, d.recipient), d.frame)
  {
    var k := PendingKey(d.frame.chat, d.recipient);
    if LeaseHeld(leases, accounts, d) {
      var code :| code in accounts && IsCodeOf(accounts, code, d.recipient)
        && d.frame.prekeyId in accounts[code].identity.pool
        && LeaseKey(code, d.frame.prekeyId) in leases
        && LeaseFor(leases[LeaseKey(code, d.frame.prekeyId)], d.frame.chat, d.frame.message, d.frame.sender,
                    d.recipient);
      assert CoveredBy(leases, accounts, code, k, d.frame);
    }
    if Covered(leases, accounts, k, d.frame) {
      var code :| CoveredBy(leases, accounts, code, k, d.frame);
      assert LeaseKey(code, d.frame.prekeyId) in leases;
    }
  }

  /** Each committed frame is the last of its queue. */
  lemma CommittedFrameQueued(b: Books, m: Message, now: nat, i: nat)
    requires Prepared(m) && i < |m.deliveries|
    ensures Queued(PushAll(b, EntriesOf(m), now).pending,
                   PendingKey(m.deliveries[i].frame.chat, m.deliveries[i].recipient),
                   PendingFrame(m.deliveries[i].frame, now))
  {
    var entries := EntriesOf(m);
    QueuePushedOnce(b, entries, |entries|, now, i);
    var q := QueueOf(PushAll(b, entries, now).pending, entries[i].key);
    assert q[|q| - 1] == PendingFrame(entries[i].frame, now);
  }

  /** After the commit, old frames stay covered; new ones are covered iff their lease is held. */
  lemma CommittedCovered(s: State, m: Message, now: nat)
    requires Prepared(m) && FramesCovered(s) && LeasesInPool(s.leases, s.accounts)
    ensures FramesCovered(s.(books := PushAll(s.books, EntriesOf(m), now))) <==>
            LeasesHeld(s.leases, s.accounts, m.deliveries)
  {
    var entries := EntriesOf(m);
    var t := s.(books := PushAll(s.books, entries, now));
    if FramesCovered(t) {
      forall i | 0 <= i < |m.deliveries| && m.deliveries[i].frame.isPrekey
        ensures LeaseHeld(s.leases, s.accounts, m.deliveries[i])
      {
        CommittedFrameQueued(s.books, m, now, i);
        HeldIffCovered(s.leases, s.accounts, m.deliveries[i]);
      }
    }
    if LeasesHeld(s.leases, s.accounts, m.deliveries) {
      forall k, pf | Queued(t.books.pending, k, pf) && pf.frame.isPrekey
        ensures Covered(t.leases, t.accounts, k, pf.frame)
      {
        QueuedAfterPush(s.books, entries, |entries|, now, k, pf);
        if !Queued(s.books.pending, k, pf) {
          var i :| 0 <= i < |entries| && entries[i].key == k && pf == PendingFrame(entries[i].frame, now);
          HeldIffCovered(s.leases, s.accounts, m.deliveries[i]);
        }
      }
    }
  }

  /** Some prekey delivery of the message goes under the lease of this frame. */
  predicate Renews(m: Message, f: Frame) {
    ReplayKeyOf(f) == ReplayKey(m.chat, m.sender, m.message)
    && exists i :: 0 <= i < |m.deliveries| && m.deliveries[i].frame.isPrekey
                && m.deliveries[i].frame.prekeyId == f.prekeyId
  }

  /** No prekey frame queued at another time goes under a lease that the message uses. */
  ghost predicate NoOtherAge(pending: Pending, m: Message, now: nat) {
    forall k, pf :: QueuedPrekey(pending, k, pf) && Renews(m, pf.frame) ==> pf.enqueuedAt == now
  }

  /** Where a prekey frame comes from that is queued after the commit. */
  lemma CommittedOrigin(b: Books, m: Message, now: nat, k: PendingKey, pf: PendingFrame)
    requires Prepared(m) && QueuedPrekey(PushAll(b, EntriesOf(m), now).pending, k, pf)
    ensures QueuedPrekey(b.pending, k, pf) || (pf.enqueuedAt == now && Renews(m, pf.frame))
  {
    var entries := EntriesOf(m);
    QueuedAfterPush(b, entries, |entries|, now, k, pf);
    if !Queued(b.pending, k, pf) {
      var i :| 0 <= i < |entries| && entries[i].key == k && pf == PendingFrame(entries[i].frame, now);
      assert entries[i].frame == m.deliveries[i].frame;
    }
  }

  lemma OldCopyTears(b: Books, m: Message, now: nat, k: PendingKey, pf: PendingFrame)
    requires Sound(b) && Prepared(m) && LeaseAges(PushAll(b, EntriesOf(m), now).pending)
    requires QueuedPrekey(b.pending, k, pf) && Renews(m, pf.frame)
    ensures pf.enqueuedAt == now
  {
    var entries := EntriesOf(m);
    var p := PushAll(b, entries, now).pending;
    var i :| 0 <= i < |m.deliveries| && m.deliveries[i].frame.isPrekey
          && m.deliveries[i].frame.prekeyId == pf.frame.prekeyId;
    CommittedFrameQueued(b, m, now, i);
    assert QueuedPrekey(p, entries[i].key, PendingFrame(m.deliveries[i].frame, now));
    assert FrameWellFormed(k, pf);
    PrekeyFramesSurvive(b, entries, |entries|, now, k, pf);
    assert QueuedPrekey(p, k, pf);
    assert ShareLease(pf.frame, m.deliveries[i].frame);
  }

  /** Frames under one lease are equally old after the commit exactly when no older one is queued. */
  lemma CommittedAges(b: Books, m: Message, now: nat)
    requires Sound(b) && Prepared(m) && LeaseAges(b.pending)
    ensures LeaseAges(PushAll(b, EntriesOf(m), now).pending) <==> NoOtherAge(b.pending, m, now)
  {
    var p := PushAll(b, EntriesOf(m), now).pending;
    if LeaseAges(p) {
      forall k, pf | QueuedPrekey(b.pending, k, pf) && Renews(m, pf.frame) ensures pf.enqueuedAt == now {
        OldCopyTears(b, m, now, k, pf);
      }
    }
    if NoOtherAge(b.pending, m, now) {
      forall k, pf | QueuedPrekey(p, k, pf)
        ensures QueuedPrekey(b.pending, k, pf) || (pf.enqueuedAt == now && Renews(m, pf.frame))
      {
        CommittedOrigin(b, m, now, k, pf);
      }
      assert forall f, g :: Renews(m, f) && ShareLease(f, g) ==> Renews(m, g);
    }
  }

  /**
    What the tables must show when the dry run has swept them: the leases
    checked before are still held, and no older frame is queued under one of
    them.
   */
  ghost predicate StillFits(s: State, m: Message, c: Clock, ttl: nat) {
    var ready := Ready(s, c, ttl);
    && LeasesHeld(ready.leases, ready.accounts, m.deliveries)
    && NoOtherAge(ready.books.pending, m, c.commit)
  }

  lemma AdmittedOrderly(s: State, m: Message, c: Clock, ttl: nat)
    requires Orderly(s) && Prepared(m) && RouteOutcome(s, m, c, ttl) == Admitted
    ensures Orderly(Routed(s, m, c, ttl))
    ensures var ready, t := Ready(s, c, ttl), Routed(s, m, c, ttl);
      && t.books == PushAll(ready.books, EntriesOf(m), c.commit) && t.leases == ready.leases
      && (forall k, f :: Covered(ready.leases, ready.accounts, k, f) <==> Covered(t.leases, t.accounts, k, f))
  {
    var s2 := Ready(s, c, ttl);
    ReadyAgrees(s, c, ttl);
    CommittedSound(s2.books, m, c.commit);
    AppliedKeeps(s2.accounts[m.senderCode], m.update, false, None);
    var b := Applied(s2.accounts[m.senderCode], m.update, false, None).value;
    AccountSwapCovers(s2.leases, s2.accounts, m.senderCode, b);
  }

  /** An admitted message leaves every frame covered for the moment exactly when its leases are still held. */
  lemma AdmittedCovers(s: State, m: Message, c: Clock, ttl: nat)
    requires Orderly(s) && Prepared(m) && RouteOutcome(s, m, c, ttl) == Admitted
    requires FramesCovered(Ready(s, c, ttl))
    ensures var ready := Ready(s, c, ttl);
      FramesCovered(Routed(s, m, c, ttl)) <==> LeasesHeld(ready.leases, ready.accounts, m.deliveries)
  {
    var s2 := Ready(s, c, ttl);
    ReadyAgrees(s, c, ttl);
    AdmittedOrderly(s, m, c, ttl);
    CommittedCovered(s2, m, c.commit);
    var t, u := Routed(s, m, c, ttl), s2.(books := PushAll(s2.books, EntriesOf(m), c.commit));
    assert FramesCovered(t) <==> FramesCovered(u);
  }

  lemma AdmittedAgrees(s: State, m: Message, c: Clock, ttl: nat)
    requires Orderly(s) && Prepared(m) && RouteOutcome(s, m, c, ttl) == Admitted
    requires Agrees(Ready(s, c, ttl))
    ensures Agrees(Routed(s, m, c, ttl)) <==> StillFits(s, m, c, ttl)
  {
    AdmittedOrderly(s, m, c, ttl);
    AdmittedCovers(s, m, c, ttl);
    CommittedAges(Ready(s, c, ttl).books, m, c.commit);
  }

  /** An admitted message leaves coverage lasting exactly when the swept tables still fit it. */
  lemma AdmittedStaysCovered(s: State, m: Message, c: Clock, ttl: nat)
    requires Orderly(s) && Prepared(m) && RouteOutcome(s, m, c, ttl) == Admitted && 0 < ttl
    requires StaysCovered(Ready(s, c, ttl), ttl)
    ensures StaysCovered(Routed(s, m, c, ttl), ttl) <==> StillFits(s, m, c, ttl)
  {
    ReadyAgrees(s, c, ttl);
    AdmittedOrderly(s, m, c, ttl);
    StaysCoveredIff(Ready(s, c, ttl), ttl);
    StaysCoveredIff(Routed(s, m, c, ttl), ttl);
    AdmittedAgrees(s, m, c, ttl);
  }

  // ---- Leasing, releasing, acknowledging, updating ------------------------

  lemma NewLeaseAgrees(s: State, lk: LeaseKey, lease: Lease)
    requires Orderly(s) && lk !in s.leases
    requires IsCodeOf(s.accounts, lk.code, lease.recipient) && lk.prekey in s.accounts[lk.code].identity.pool
    ensures var t := s.(leases := s.leases[lk := lease]); Orderly(t) && (Agrees(s) ==> Agrees(t))
  {
    var more := s.leases[lk := lease];
    forall k, f | Covered(s.leases, s.accounts, k, f) ensures Covered(more, s.accounts, k, f) {
      var code :| CoveredBy(s.leases, s.accounts, code, k, f);
      assert CoveredBy(more, s.accounts, code, k, f);
    }
  }

  lemma LeaseAgrees(s: State, r: Request, sweep: nat, now: nat, ttl: nat)
    requires Orderly(s)
    ensures var t := Leased(s, r, sweep, now, ttl).0; Orderly(t) && (Agrees(s) ==> Agrees(t))
  {
    PruneOrderly(s, sweep, ttl);
    if Agrees(s) { PruneAgrees(s, sweep, ttl); }
    var s1, t := Prune(s, sweep, ttl), Leased(s, r, sweep, now, ttl).0;
    if t != s1 {
      PrunedLeasesAgree(s1, now);
      var s2 := s1.(leases := PrunedLeases(s1.leases, s1.books.pending, now));
      if t != s2 {
        var code := CodeOf(s1.accounts, r.recipient);
        var lk := LeaseKey(code, LeaseChoice(s2, code, r).value);
        NewLeaseAgrees(s2, lk, t.leases[lk]);
      }
    }
  }

  lemma ReleaseAgrees(s: State, r: Request, id: Name)
    requires Orderly(s)
    ensures var t := LeaseReleased(s, r, id); Orderly(t) && (Agrees(s) ==> Agrees(t))
  {
    if Agrees(s) && CanRelease(s, r, id) {
      var t := LeaseReleased(s, r, id);
      var lk := LeaseKey(CodeOf(s.accounts, r.recipient), id);
      forall k, pf | Queued(s.books.pending, k, pf) && pf.frame.isPrekey
        ensures Covered(t.leases, t.accounts, k, pf.frame)
      {
        var code :| CoveredBy(s.leases, s.accounts, code, k, pf.frame);
        if LeaseKey(code, pf.frame.prekeyId) == lk {
          UsedLeaseStays(s.books.pending, k, pf, lk, s.leases[lk]);
        }
        assert CoveredBy(t.leases, t.accounts, code, k, pf.frame);
      }
    }
  }

  lemma UpdateAgrees(s: State, code: CodeId, u: Update)
    requires Orderly(s) && Updatable(s, code, u)
    ensures var t := Updated(s, code, u); Orderly(t) && (Agrees(s) ==> Agrees(t))
  {
    AppliedKeeps(s.accounts[code], u, true, None);
    AccountSwapCovers(s.leases, s.accounts, code, Applied(s.accounts[code], u, true, None).value);
  }

  /** The queues without the i-th frame of one of them. */
  function Dequeued(pending: Pending, k: PendingKey, i: nat): Pending
    requires i < |QueueOf(pending, k)|
  {
    var rest := RemoveAt(QueueOf(pending, k), i);
    if rest == [] then pending - {k} else pending[k := rest]
  }

  lemma DequeuedBytes(pending: Pending, k: PendingKey, i: nat)
    requires i < |QueueOf(pending, k)|
    ensures BytesOf(Dequeued(pending, k, i)) + QueueOf(pending, k)[i].frame.bytes == BytesOf(pending)
  {
    var rest := RemoveAt(QueueOf(pending, k), i);
    BytesRemoveAt(QueueOf(pending, k), i);
    TotalUpdate(pending, Bytes, k, rest);
  }

  lemma DequeuedQueued(pending: Pending, k: PendingKey, i: nat, l: PendingKey, pf: PendingFrame)
    requires i < |QueueOf(pending, k)|
    ensures Queued(Dequeued(pending, k, i), l, pf) ==> Queued(pending, l, pf)
  {
  }

  lemma AckSound(b: Books, k: PendingKey, i: nat)
    requires Sound(b) && i < |QueueOf(b.pending, k)|
    ensures var bytes := QueueOf(b.pending, k)[i].frame.bytes;
      bytes <= b.bytes && Sound(Books(Dequeued(b.pending, k, i), b.bytes - bytes))
    ensures forall l, pf :: Queued(Dequeued(b.pending, k, i), l, pf) ==> Queued(b.pending, l, pf)
  {
    DequeuedBytes(b.pending, k, i);
    forall l, pf ensures Queued(Dequeued(b.pending, k, i), l, pf) ==> Queued(b.pending, l, pf) {
      DequeuedQueued(b.pending, k, i, l, pf);
    }
  }

  /** The consumed lease covered no other frame. */
  lemma AckCovers(s: State, a: Ack, i: nat)
    requires Agrees(s) && AckAccepted(s, a, i) && IsCodeOf(s.accounts, a.code, a.username)
    ensures FramesCovered(Acked(s, a, i).(accounts := s.accounts))
  {
    var t := Acked(s, a, i);
    AckSound(s.books, AckKey(a), i);
    forall l, pf | Queued(t.books.pending, l, pf) && pf.frame.isPrekey
      ensures Covered(t.leases, s.accounts, l, pf.frame)
    {
      assert Queued(s.books.pending, l, pf);
      var code :| CoveredBy(s.leases, s.accounts, code, l, pf.frame);
      OtherwiseMatches(s, a, i, t.books.pending, l, pf);
      assert CoveredBy(t.leases, s.accounts, code, l, pf.frame);
    }
  }

  lemma AckAgrees(s: State, a: Ack, i: nat)
    requires Orderly(s) && AckAccepted(s, a, i) && IsCodeOf(s.accounts, a.code, a.username)
    ensures Orderly(Acked(s, a, i)) && (Agrees(s) ==> Agrees(Acked(s, a, i)))
  {
    var t := Acked(s, a, i);
    AckSound(s.books, AckKey(a), i);
    AppliedKeeps(s.accounts[a.code], a.update, true, Consumed(a));
    forall lk | lk in t.leases && lk.code == a.code ensures lk.prekey in a.update.identity.pool {
      assert a.used != "" ==> lk != LeaseKey(a.code, a.used);
    }
    AccountSwapCovers(t.leases, s.accounts, a.code, t.accounts[a.code]);
    if Agrees(s) {
      AckCovers(s, a, i);
      FewerFramesAgree(s.books.pending, t.books.pending);
    }
  }

  /** A frame still queued after the removal is not the one the acknowledgement names. */
  lemma OtherwiseMatches(s: State, a: Ack, i: nat, rest: Pending, l: PendingKey, pf: PendingFrame)
    requires AckAccepted(s, a, i)
    requires rest == Acked(s, a, i).books.pending && Queued(rest, l, pf)
    ensures !(l == AckKey(a) && MatchesAck(pf.frame, a))
  {
    var q := QueueOf(s.books.pending, AckKey(a));
    if l == AckKey(a) {
      var r := RemoveAt(q, i);
      var j :| 0 <= j < |r| && r[j] == pf;
      assert q[if j < i then j else j + 1] == pf;
    }
  }

  /**
    An accepted acknowledgement that names a used prekey: the revision strictly
    advances, exactly that id leaves the pool for one new id, exactly one frame
    and one lease go, and every other lease of the recipient stays in the pool.
   */
  lemma AckConsumesOne(s: State, a: Ack, i: nat)
    requires Orderly(s) && AckAccepted(s, a, i) && a.used != ""
    ensures var t := Acked(s, a, i);
      var before, after := s.accounts[a.code], t.accounts[a.code];
      && a.update.revision > before.window.revision && after.window.revision == a.update.revision
      && a.used in before.identity.pool && a.used !in after.identity.pool
      && (exists added :: added !in before.identity.pool
            && (forall id :: id in after.identity.pool <==>
                  (id in before.identity.pool && id != a.used) || id == added))
      && t.leases.Keys == s.leases.Keys - {LeaseKey(a.code, a.used)} && LeaseKey(a.code, a.used) in s.leases
      && (forall lk :: lk in t.leases && lk.code == a.code ==> lk.prekey in after.identity.pool)
      && QueueOf(t.books.pending, AckKey(a)) == RemoveAt(QueueOf(s.books.pending, AckKey(a)), i)
      && (forall k :: k != AckKey(a) ==> QueueOf(t.books.pending, k) == QueueOf(s.books.pending, k))
      && t.books.bytes + QueueOf(s.books.pending, AckKey(a))[i].frame.bytes == s.books.bytes
  {
    ConsumptionAdvances(s.accounts[a.code], a.update, true, a.used);
    AppliedKeeps(s.accounts[a.code], a.update, true, Some(a.used));
  }

  lemma AcknowledgeAgrees(s: State, a: Ack, now: nat, ttl: nat)
    requires Orderly(s) && IsCodeOf(s.accounts, a.code, a.username)
    ensures var t := Acknowledged(s, a, now, ttl); Orderly(t) && (Agrees(s) ==> Agrees(t))
  {
    PruneOrderly(s, now, ttl);
    if Agrees(s) { PruneAgrees(s, now, ttl); }
    var s1 := Prune(s, now, ttl);
    if exists i :: AckAccepted(s1, a, i) {
      var i :| AckAccepted(s1, a, i) && Acknowledged(s, a, now, ttl) == Acked(s1, a, i);
      AckAgrees(s1, a, i);
    }
  }

  lemma RegisterAgrees(s: State, code: CodeId, a: Account)
    requires Orderly(s) && code !in s.accounts
    requires Canonical(a.identity) && forall c :: c in s.accounts ==> s.accounts[c].username != a.username
    ensures var t := s.(accounts := s.accounts[code := a]); Orderly(t) && (Agrees(s) ==> Agrees(t))
  {
    var accounts := s.accounts[code := a];
    forall k, f | Covered(s.leases, s.accounts, k, f) ensures Covered(s.leases, accounts, k, f) {
      var c :| CoveredBy(s.leases, s.accounts, c, k, f);
      assert CoveredBy(s.leases, accounts, c, k, f);
    }
  }
}
