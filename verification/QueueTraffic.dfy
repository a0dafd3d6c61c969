/**
  How frames come into the pending queues and leave them: which frame an
  acknowledgement takes, when it is accepted, where a frame comes from, and why
  it is gone after a step.
 */
module QueueTraffic {
  import opened Basics
  import opened PendingQueues
  import opened Admission
  import opened Agreement
  import opened AdmissionRuns

  // ---- Acknowledgements ---------------------------------------------------

  /** The frame carries the acknowledged message and prekey; an ordinary frame carries the empty one. */
  predicate Named(f: Frame, a: Ack) {
    f.message == a.message && f.sender == a.sender && f.prekeyId == a.used
  }

  lemma MatchIffNamed(s: State, a: Ack, i: nat)
    requires Orderly(s) && i < |QueueOf(s.books.pending, AckKey(a))|
    ensures var f := QueueOf(s.books.pending, AckKey(a))[i].frame;
      && f.chat == a.chat && (f.isPrekey <==> f.prekeyId != "")
      && (MatchesAck(f, a) <==> Named(f, a))
  {
    var q := QueueOf(s.books.pending, AckKey(a));
    assert Queued(s.books.pending, AckKey(a), q[i]);
    assert FrameWellFormed(AckKey(a), q[i]);
  }

  /** The i-th frame of the recipient's queue is the only one that the acknowledgement names. */
  predicate SoleNamed(s: State, a: Ack, i: nat) {
    var q := QueueOf(s.books.pending, AckKey(a));
    i < |q| && Named(q[i].frame, a) && forall j :: 0 <= j < |q| && Named(q[j].frame, a) ==> j == i
  }

  predicate HoldsLease(s: State, a: Ack) {
    var lk := LeaseKey(a.code, a.used);
    && lk in s.leases && s.leases[lk].chat == a.chat && s.leases[lk].message == a.message
    && s.leases[lk].sender == a.sender && s.leases[lk].recipient == a.username
  }

  lemma MatchIffSole(s: State, a: Ack, i: nat)
    requires Orderly(s)
    ensures OnlyMatch(QueueOf(s.books.pending, AckKey(a)), a, i) <==> SoleNamed(s, a, i)
  {
    var q := QueueOf(s.books.pending, AckKey(a));
    forall j: nat | j < |q| ensures MatchesAck(q[j].frame, a) <==> Named(q[j].frame, a) {
      MatchIffNamed(s, a, j);
    }
  }

  /** The accepted pool transition leaves every other lease of the recipient in the pool. */
  lemma OthersStayInPool(s: State, a: Ack)
    requires Orderly(s) && a.code in s.accounts && Applied(s.accounts[a.code], a.update, true, Consumed(a)).Some?
    ensures Canonical(a.update.identity)
    ensures OtherLeasesKept(s.leases, a.code, a.update.identity.pool, Consumed(a))
  {
    var before, after := s.accounts[a.code].identity.pool, a.update.identity.pool;
    if Consumed(a).Some? {
      var removed := Without(before, after);
      forall lk | lk in s.leases && lk.code == a.code && Consumed(a) != Some(lk.prekey) ensures lk.prekey in after {
        assert lk.prekey in before;
        assert removed == [a.used];
        assert lk.prekey in removed ==> lk.prekey == a.used;
      }
    }
  }

  /**
    An acknowledgement is accepted exactly when it names exactly one frame of its
    own queue, holds the lease of the prekey it reports as used, and presents an
    identity state that is accepted with that consumption.
   */
  lemma AckAcceptedIff(s: State, a: Ack, i: nat)
    requires Orderly(s)
    ensures AckAccepted(s, a, i) <==>
            && SoleNamed(s, a, i)
            && (a.used != "" ==> HoldsLease(s, a))
            && a.code in s.accounts
            && Applied(s.accounts[a.code], a.update, true, if a.used == "" then None else Some(a.used)).Some?
  {
    MatchIffSole(s, a, i);
    if SoleNamed(s, a, i) { AckSound(s.books, AckKey(a), i); }
    if a.code in s.accounts && Applied(s.accounts[a.code], a.update, true, Consumed(a)).Some? {
      OthersStayInPool(s, a);
    }
  }

  /**
    What an accepted acknowledgement takes: one frame of its chat, message and
    sender, a prekey frame exactly if it reports a used prekey, and then of that
    prekey. Every other frame stays in its place.
   */
  lemma AckTakes(s: State, a: Ack, i: nat)
    requires Orderly(s) && AckAccepted(s, a, i)
    ensures var q, t := QueueOf(s.books.pending, AckKey(a)), Acked(s, a, i);
      var f := q[i].frame;
      && f.chat == a.chat && f.message == a.message && f.sender == a.sender
      && (f.isPrekey <==> a.used != "") && f.prekeyId == a.used
      && QueueOf(t.books.pending, PendingKey(a.chat, a.username)) == q[..i] + q[i + 1..]
      && (forall k :: k != PendingKey(a.chat, a.username) ==>
            QueueOf(t.books.pending, k) == QueueOf(s.books.pending, k))
      && t.books.bytes == s.books.bytes - f.bytes
      && (a.used == "" ==> t.leases == s.leases && t.accounts[a.code].identity.pool == s.accounts[a.code].identity.pool)
  {
    MatchIffNamed(s, a, i);
  }

  // ---- Arrivals -----------------------------------------------------------

  /** The frame was prepared for this queue by the message that the step admits. */
  ghost predicate BroughtBy(s: State, step: Step, ttl: nat, k: PendingKey, pf: PendingFrame) {
    && Admits(s, step, ttl) && pf.enqueuedAt == step.clock.commit
    && exists d :: d in step.message.deliveries && d.frame == pf.frame && k == PendingKey(d.frame.chat, d.recipient)
  }

  lemma BatchBrings(b: Books, m: Message, now: nat, k: PendingKey, pf: PendingFrame)
    requires Queued(PushAll(b, EntriesOf(m), now).pending, k, pf) && !Queued(b.pending, k, pf)
    ensures pf.enqueuedAt == now
    ensures exists d :: d in m.deliveries && d.frame == pf.frame && k == PendingKey(d.frame.chat, d.recipient)
  {
    var entries := EntriesOf(m);
    QueuedAfterPush(b, entries, |entries|, now, k, pf);
    var i :| 0 <= i < |entries| && entries[i].key == k && pf == PendingFrame(entries[i].frame, now);
    assert m.deliveries[i] in m.deliveries;
  }

  /** Frames come from admitted messages only, and every frame of an admitted message is queued. */
  lemma StepArrival(s: State, step: Step, ttl: nat, k: PendingKey, pf: PendingFrame)
    requires Orderly(s) && Callable(s, step)
    ensures Queued(Next(s, step, ttl).books.pending, k, pf) ==>
            Queued(s.books.pending, k, pf) || BroughtBy(s, step, ttl, k, pf)
    ensures BroughtBy(s, step, ttl, k, pf) ==> Queued(Next(s, step, ttl).books.pending, k, pf)
  {
    if !step.Route? {
      OthersAddNothing(s, step, ttl, k, pf);
    } else {
      RouteArrival(s, step.message, step.clock, ttl, k, pf);
    }
  }

  lemma RouteArrival(s: State, m: Message, c: Clock, ttl: nat, k: PendingKey, pf: PendingFrame)
    requires Orderly(s) && Prepared(m)
    ensures Queued(Routed(s, m, c, ttl).books.pending, k, pf) ==>
            Queued(s.books.pending, k, pf) || BroughtBy(s, Route(m, c), ttl, k, pf)
    ensures BroughtBy(s, Route(m, c), ttl, k, pf) ==> Queued(Routed(s, m, c, ttl).books.pending, k, pf)
  {
    var b := Ready(s, c, ttl).books;
    ReadyQueued(s, c, ttl, k, pf);
    if RouteOutcome(s, m, c, ttl) == Admitted {
      AdmittedOrderly(s, m, c, ttl);
      var after := PushAll(b, EntriesOf(m), c.commit).pending;
      if Queued(after, k, pf) && !Queued(b.pending, k, pf) { BatchBrings(b, m, c.commit, k, pf); }
      if BroughtBy(s, Route(m, c), ttl, k, pf) { BatchDelivers(b, m, c.commit, k, pf); }
    } else {
      RefusedBooks(s, c, ttl, RouteOutcome(s, m, c, ttl));
    }
  }

  lemma BatchDelivers(b: Books, m: Message, now: nat, k: PendingKey, pf: PendingFrame)
    requires Prepared(m) && pf.enqueuedAt == now
    requires exists d :: d in m.deliveries && d.frame == pf.frame && k == PendingKey(d.frame.chat, d.recipient)
    ensures Queued(PushAll(b, EntriesOf(m), now).pending, k, pf)
  {
    var d :| d in m.deliveries && d.frame == pf.frame && k == PendingKey(d.frame.chat, d.recipient);
    var i :| 0 <= i < |m.deliveries| && m.deliveries[i] == d;
    CommittedFrameQueued(b, m, now, i);
  }

  // ---- Departures ---------------------------------------------------------

  /** The readings at which a step sweeps the queues. */
  function Readings(step: Step): set<nat> {
    match step
    case Sweep(now) => {now}
    case LeaseRequest(_, sweep, _) => {sweep}
    case Route(_, c) => {c.sweep, c.preflight}
    case Acknowledge(_, now) => {now}
    case _ => {}
  }

  /** The frame has waited for the whole time to live. */
  predicate Due(pf: PendingFrame, now: nat, ttl: nat) {
    ttl == 0 || pf.enqueuedAt + ttl <= now
  }

  predicate ExpiresIn(step: Step, pf: PendingFrame, ttl: nat) {
    exists now :: now in Readings(step) && Due(pf, now, ttl)
  }

  /** A sweep drops exactly the frames that are due. */
  lemma SweepDropsDue(s: State, now: nat, ttl: nat, k: PendingKey, pf: PendingFrame)
    ensures Queued(Prune(s, now, ttl).books.pending, k, pf) <==> Queued(s.books.pending, k, pf) && !Due(pf, now, ttl)
  {
    PrunedQueued(s.books.pending, now, ttl, k, pf);
  }

  /** An accepted acknowledgement names the frame; a prekey frame's id leaves the recipient's pool with it. */
  predicate TakenBy(s: State, step: Step, t: State, k: PendingKey, pf: PendingFrame) {
    step.Acknowledge?
    && var a := step.ack;
       && k == PendingKey(a.chat, a.username) && Named(pf.frame, a)
       && (pf.frame.isPrekey ==> LosesId(s.accounts, t.accounts, a.code, k.recipient, pf.frame.prekeyId))
  }

  /** The pool of the account with this code and name holds the id before and not after. */
  predicate LosesId(before: Accounts, after: Accounts, code: CodeId, name: Name, id: Name) {
    && IsCodeOf(before, code, name) && IsCodeOf(after, code, name)
    && id in before[code].identity.pool && id !in after[code].identity.pool
  }

  /** The oldest ordinary frame of a full queue makes room for a new frame of that queue. */
  ghost predicate EvictedBy(s: State, step: Step, ttl: nat, k: PendingKey, pf: PendingFrame) {
    Admits(s, step, ttl) && MakesRoom(Ready(s, step.clock, ttl).books, step.message, k, pf)
  }

  ghost predicate MakesRoom(b: Books, m: Message, k: PendingKey, pf: PendingFrame) {
    var q := QueueOf(b.pending, k);
    && !pf.frame.isPrekey && |q| >= MAX_PENDING_FRAMES
    && (exists d :: d in m.deliveries && PendingKey(d.frame.chat, d.recipient) == k)
    && exists j :: 0 <= j < |q| && q[j] == pf && forall l :: 0 <= l < j ==> q[l].frame.isPrekey
  }

  lemma SurvivesSweeps(s: State, c: Clock, ttl: nat, k: PendingKey, pf: PendingFrame)
    requires Queued(s.books.pending, k, pf)
    requires !Due(pf, c.sweep, ttl)
    ensures Queued(Admitting(s, c, ttl).books.pending, k, pf)
    ensures !Due(pf, c.preflight, ttl) ==> Queued(Ready(s, c, ttl).books.pending, k, pf)
  {
    SweepDropsDue(s, c.sweep, ttl, k, pf);
    SweepDropsDue(Admitting(s, c, ttl), c.preflight, ttl, k, pf);
  }

  /** A queued frame is still queued after a batch, or it was the one evicted for a frame of the batch. */
  lemma SurvivesBatch(b: Books, m: Message, now: nat, k: PendingKey, pf: PendingFrame)
    requires Sound(b) && Prepared(m) && Queued(b.pending, k, pf)
    ensures Queued(PushAll(b, EntriesOf(m), now).pending, k, pf) || MakesRoom(b, m, k, pf)
  {
    var entries := EntriesOf(m);
    assert FrameWellFormed(k, pf);
    if pf.frame.isPrekey {
      PrekeyFramesSurvive(b, entries, |entries|, now, k, pf);
    } else if exists i :: 0 <= i < |entries| && entries[i].key == k {
      var i :| 0 <= i < |entries| && entries[i].key == k;
      assert m.deliveries[i] in m.deliveries;
      QueuePushedOnce(b, entries, |entries|, now, i);
      PushedKeepsOthers(b, PushAll(b, entries, now), entries[i], now, pf);
    } else {
      assert KeysOf(entries)[..|entries|] == KeysOf(entries);
      QueueUntouched(b, entries, |entries|, now, k);
    }
  }

  lemma PushedKeepsOthers(b: Books, c: Books, e: Entry, now: nat, pf: PendingFrame)
    requires PushedOnce(b, c, e, now) && Queued(b.pending, e.key, pf)
    requires forall x :: Queued(b.pending, e.key, x) ==> (x.frame.isPrekey <==> x.frame.prekeyId != "")
    ensures var q := QueueOf(b.pending, e.key);
      || Queued(c.pending, e.key, pf)
      || (&& |q| >= MAX_PENDING_FRAMES
          && exists j :: 0 <= j < |q| && q[j] == pf && forall l :: 0 <= l < j ==> q[l].frame.isPrekey)
  {
    var q := QueueOf(b.pending, e.key);
    var v := EvictionIndex(Shape(q));
    var j :| 0 <= j < |q| && q[j] == pf;
    var after := c.pending[e.key];
    if v.None? {
      assert after[j] == pf;
    } else if j != v.value {
      assert after[if j < v.value then j else j - 1] == pf;
    } else {
      forall l | 0 <= l < j ensures q[l].frame.isPrekey {
        OnlyPrekeysBefore(Shape(q), l);
        assert Shape(q)[l].prekey;
      }
    }
  }

  lemma RouteDeparture(s: State, m: Message, c: Clock, ttl: nat, k: PendingKey, pf: PendingFrame)
    requires Orderly(s) && Prepared(m) && Queued(s.books.pending, k, pf)
    requires !Queued(Routed(s, m, c, ttl).books.pending, k, pf)
    ensures ExpiresIn(Route(m, c), pf, ttl) || EvictedBy(s, Route(m, c), ttl, k, pf)
  {
    assert c.sweep in Readings(Route(m, c)) && c.preflight in Readings(Route(m, c));
    if !Due(pf, c.sweep, ttl) && !Due(pf, c.preflight, ttl) {
      SurvivesSweeps(s, c, ttl, k, pf);
      RouteEvicts(s, m, c, ttl, k, pf);
    }
  }

  lemma RouteEvicts(s: State, m: Message, c: Clock, ttl: nat, k: PendingKey, pf: PendingFrame)
    requires Orderly(s) && Prepared(m)
    requires Queued(Admitting(s, c, ttl).books.pending, k, pf) && Queued(Ready(s, c, ttl).books.pending, k, pf)
    requires !Queued(Routed(s, m, c, ttl).books.pending, k, pf)
    ensures EvictedBy(s, Route(m, c), ttl, k, pf)
  {
    if RouteOutcome(s, m, c, ttl) == Admitted {
      AdmittedOrderly(s, m, c, ttl);
      ReadyAgrees(s, c, ttl);
      SurvivesBatch(Ready(s, c, ttl).books, m, c.commit, k, pf);
    } else {
      RefusedBooks(s, c, ttl, RouteOutcome(s, m, c, ttl));
    }
  }

  lemma RefusedBooks(s: State, c: Clock, ttl: nat, o: Outcome)
    ensures Refused(s, c, ttl, o).books in {Admitting(s, c, ttl).books, Ready(s, c, ttl).books}
  {
  }

  lemma OnlyOneTaken(q: seq<PendingFrame>, i: nat, pf: PendingFrame)
    requires i < |q| && pf in q && pf !in q[..i] + q[i + 1..]
    ensures q[i] == pf
  {
    var j :| 0 <= j < |q| && q[j] == pf;
    assert q == q[..i] + [q[i]] + q[i + 1..];
  }

  lemma AckDeparture(s: State, a: Ack, now: nat, ttl: nat, k: PendingKey, pf: PendingFrame)
    requires Orderly(s) && IsCodeOf(s.accounts, a.code, a.username) && Queued(s.books.pending, k, pf)
    requires !Queued(Acknowledged(s, a, now, ttl).books.pending, k, pf) && !Due(pf, now, ttl)
    ensures TakenBy(s, Acknowledge(a, now), Acknowledged(s, a, now, ttl), k, pf)
  {
    var s1 := Prune(s, now, ttl);
    PruneOrderly(s, now, ttl);
    SweepDropsDue(s, now, ttl, k, pf);
    if exists i :: AckAccepted(s1, a, i) {
      var i :| AckAccepted(s1, a, i) && Acknowledged(s, a, now, ttl) == Acked(s1, a, i);
      AckDepartureAt(s1, a, i, now, k, pf);
    }
  }

  lemma AckDepartureAt(s: State, a: Ack, i: nat, now: nat, k: PendingKey, pf: PendingFrame)
    requires Orderly(s) && AckAccepted(s, a, i) && IsCodeOf(s.accounts, a.code, a.username)
    requires Queued(s.books.pending, k, pf) && !Queued(Acked(s, a, i).books.pending, k, pf)
    ensures TakenBy(s, Acknowledge(a, now), Acked(s, a, i), k, pf)
  {
    TakenFrame(s, a, i, k, pf);
    if a.used != "" { PoolLoses(s, a, i); }
  }

  lemma PoolLoses(s: State, a: Ack, i: nat)
    requires AckAccepted(s, a, i) && a.used != ""
    ensures LosesId(s.accounts, Acked(s, a, i).accounts, a.code, s.accounts[a.code].username, a.used)
  {
    ConsumptionAdvances(s.accounts[a.code], a.update, true, a.used);
  }

  lemma TakenFrame(s: State, a: Ack, i: nat, k: PendingKey, pf: PendingFrame)
    requires Orderly(s) && AckAccepted(s, a, i)
    requires Queued(s.books.pending, k, pf) && !Queued(Acked(s, a, i).books.pending, k, pf)
    ensures k == PendingKey(a.chat, a.username) && Named(pf.frame, a) && (pf.frame.isPrekey <==> a.used != "")
  {
    AckTakes(s, a, i);
    var q, rest := QueueOf(s.books.pending, k), QueueOf(Acked(s, a, i).books.pending, k);
    assert pf in q && pf !in rest;
    assert k == AckKey(a);
    OnlyOneTaken(q, i, pf);
  }

  /**
    A queued frame is gone after a step only because it expired at a reading of
    the step, because of a wipe, because an acknowledgement that names it was
    accepted, which for a prekey frame takes its id out of the recipient's pool,
    or, for an ordinary frame, because it was the oldest ordinary frame of a full
    queue that a new frame joined.
   */
  lemma StepDeparture(s: State, step: Step, ttl: nat, k: PendingKey, pf: PendingFrame)
    requires Orderly(s) && Callable(s, step) && Queued(s.books.pending, k, pf)
    requires !Queued(Next(s, step, ttl).books.pending, k, pf)
    ensures step.Wipe? || ExpiresIn(step, pf, ttl)
         || TakenBy(s, step, Next(s, step, ttl), k, pf) || EvictedBy(s, step, ttl, k, pf)
  {
    match step
    case Sweep(now) =>
      SweepDropsDue(s, now, ttl, k, pf);
      assert now in Readings(step);
    case LeaseRequest(r, sweep, now) =>
      SweepDropsDue(s, sweep, ttl, k, pf);
      assert sweep in Readings(step);
    case Route(m, c) => RouteDeparture(s, m, c, ttl, k, pf);
    case Acknowledge(a, now) =>
      assert now in Readings(step);
      if !Due(pf, now, ttl) { AckDeparture(s, a, now, ttl, k, pf); }
    case _ =>
  }

  /** In every run a prekey frame leaves by expiry, by a wipe, or together with its id in the recipient's pool. */
  lemma PrekeyFrameDeparts(ss: seq<State>, steps: seq<Step>, i: nat, ttl: nat, k: PendingKey, pf: PendingFrame)
    requires Run(ss, steps, ttl) && i < |steps| && pf.frame.isPrekey
    requires Queued(ss[i].books.pending, k, pf) && !Queued(ss[i + 1].books.pending, k, pf)
    ensures steps[i].Wipe? || ExpiresIn(steps[i], pf, ttl) || TakenBy(ss[i], steps[i], ss[i + 1], k, pf)
  {
    ReachableOrderly(ss, steps, i, ttl);
    assert StepAt(ss, steps, i, ttl);
    StepDeparture(ss[i], steps[i], ttl, k, pf);
  }
}
