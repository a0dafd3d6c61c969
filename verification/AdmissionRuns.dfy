/**
  Whole runs of the relay's admission tables: every interleaving of the
  operations that hold `conversation_ops`, at any clock readings.
 */
module AdmissionRuns {
  import opened Basics
  import opened PendingQueues
  import opened Admission
  import opened Agreement
  import RevisionWindow

  datatype Step =
    | Sweep(now: nat)
    | LeaseRequest(request: Request, sweptAt: nat, leasedAt: nat)
    | ReleaseRequest(request: Request, prekey: Name)
    | Route(message: Message, clock: Clock)
    | Acknowledge(ack: Ack, ackedAt: nat)
    | UpdateIdentity(code: CodeId, update: Update)
    | Register(newCode: CodeId, account: Account)
    | Wipe

  /**
    What the surrounding code guarantees when a step starts: the code and name
    of a client come from one session, and registration draws a fresh code,
    refuses a taken name and starts at revision 0.
   */
  ghost predicate Callable(s: State, step: Step) {
    match step
    case Route(m, _) => Prepared(m) && IsCodeOf(s.accounts, m.senderCode, m.sender)
    case Acknowledge(a, _) => IsCodeOf(s.accounts, a.code, a.username)
    case Register(code, a) =>
      && code !in s.accounts && Canonical(a.identity) && a.window == RevisionWindow.Initial
      && (forall c :: c in s.accounts ==> s.accounts[c].username != a.username)
    case _ => true
  }

  ghost function Next(s: State, step: Step, ttl: nat): State {
    match step
    case Sweep(now) => Prune(s, now, ttl)
    case LeaseRequest(r, sweep, now) => Leased(s, r, sweep, now, ttl).0
    case ReleaseRequest(r, id) => LeaseReleased(s, r, id)
    case Route(m, c) => Routed(s, m, c, ttl)
    case Acknowledge(a, now) => Acknowledged(s, a, now, ttl)
    case UpdateIdentity(code, u) => Updated(s, code, u)
    case Register(code, a) => s.(accounts := s.accounts[code := a])
    case Wipe => Empty
  }

  /** The states that a sequence of steps passes through, from the empty relay on. */
  ghost predicate Run(ss: seq<State>, steps: seq<Step>, ttl: nat) {
    |ss| == |steps| + 1 && ss[0] == Empty && forall i :: 0 <= i < |steps| ==> StepAt(ss, steps, i, ttl)
  }

  ghost predicate StepAt(ss: seq<State>, steps: seq<Step>, i: nat, ttl: nat)
    requires i < |steps| && i + 1 < |ss|
  {
    Callable(ss[i], steps[i]) && ss[i + 1] == Next(ss[i], steps[i], ttl)
  }

  ghost predicate Admits(s: State, step: Step, ttl: nat) {
    step.Route? && RouteOutcome(s, step.message, step.clock, ttl) == Admitted
  }

  // ---- Agreement ----------------------------------------------------------

  /** The one thing a step needs for the tables to go on agreeing. */
  ghost predicate StepFits(s: State, step: Step, ttl: nat) {
    Admits(s, step, ttl) ==> StillFits(s, step.message, step.clock, ttl)
  }

  lemma RouteKeeps(s: State, m: Message, c: Clock, ttl: nat)
    requires Orderly(s) && Prepared(m)
    ensures Orderly(Routed(s, m, c, ttl))
    ensures Agrees(s) ==> (Agrees(Routed(s, m, c, ttl)) <==> StepFits(s, Route(m, c), ttl))
  {
    if RouteOutcome(s, m, c, ttl) == Admitted {
      AdmittedOrderly(s, m, c, ttl);
      ReadyAgrees(s, c, ttl);
      if Agrees(s) { AdmittedAgrees(s, m, c, ttl); }
    } else {
      RefusedAgrees(s, c, ttl, RouteOutcome(s, m, c, ttl));
    }
  }

  lemma StepKeeps(s: State, step: Step, ttl: nat)
    requires Orderly(s) && Callable(s, step)
    ensures Orderly(Next(s, step, ttl))
    ensures Agrees(s) ==> (Agrees(Next(s, step, ttl)) <==> StepFits(s, step, ttl))
  {
    match step
    case Sweep(now) =>
      PruneOrderly(s, now, ttl);
      if Agrees(s) { PruneAgrees(s, now, ttl); }
    case LeaseRequest(r, sweep, now) => LeaseAgrees(s, r, sweep, now, ttl);
    case ReleaseRequest(r, id) => ReleaseAgrees(s, r, id);
    case Route(m, c) => RouteKeeps(s, m, c, ttl);
    case Acknowledge(a, now) => AcknowledgeAgrees(s, a, now, ttl);
    case UpdateIdentity(code, u) => if Updatable(s, code, u) { UpdateAgrees(s, code, u); }
    case Register(code, a) => RegisterAgrees(s, code, a);
    case Wipe =>
  }

  ghost predicate StepFitsAt(ss: seq<State>, steps: seq<Step>, i: nat, ttl: nat)
    requires i < |steps| && i + 1 < |ss|
  {
    StepFits(ss[i], steps[i], ttl)
  }

  ghost predicate AgreesAt(ss: seq<State>, i: nat)
    requires i < |ss|
  {
    Agrees(ss[i])
  }

  lemma StepKeepsAt(ss: seq<State>, steps: seq<Step>, i: nat, ttl: nat)
    requires Run(ss, steps, ttl) && i < |steps| && Orderly(ss[i])
    ensures Orderly(ss[i + 1])
    ensures AgreesAt(ss, i) ==> (AgreesAt(ss, i + 1) <==> StepFitsAt(ss, steps, i, ttl))
  {
    assert StepAt(ss, steps, i, ttl);
    StepKeeps(ss[i], steps[i], ttl);
  }

  /** Every reachable state is orderly, whatever the clock readings and the frame lifetime are. */
  lemma {:induction false} ReachableOrderly(ss: seq<State>, steps: seq<Step>, n: nat, ttl: nat)
    requires Run(ss, steps, ttl) && n < |ss|
    ensures Orderly(ss[n])
  {
    if n > 0 {
      ReachableOrderly(ss, steps, n - 1, ttl);
      StepKeepsAt(ss, steps, n - 1, ttl);
    }
  }

  lemma {:induction false} FittingRunAgrees(ss: seq<State>, steps: seq<Step>, n: nat, ttl: nat)
    requires Run(ss, steps, ttl) && n < |ss|
    requires forall i :: 0 <= i < n ==> StepFitsAt(ss, steps, i, ttl)
    ensures AgreesAt(ss, n)
  {
    if n > 0 {
      FittingRunAgrees(ss, steps, n - 1, ttl);
      StepKeepsAt(ss, steps, n - 1, ttl);
    }
  }

  lemma AgreeingRunFits(ss: seq<State>, steps: seq<Step>, n: nat, ttl: nat)
    requires Run(ss, steps, ttl) && n < |ss|
    ensures (forall i :: 0 <= i <= n ==> AgreesAt(ss, i)) <==>
            (forall i :: 0 <= i < n ==> StepFitsAt(ss, steps, i, ttl))
  {
    if forall i :: 0 <= i < n ==> StepFitsAt(ss, steps, i, ttl) {
      forall i | 0 <= i <= n ensures AgreesAt(ss, i) {
        FittingRunAgrees(ss, steps, i, ttl);
      }
    }
    if forall i :: 0 <= i <= n ==> AgreesAt(ss, i) {
      forall i | 0 <= i < n ensures StepFitsAt(ss, steps, i, ttl) {
        assert AgreesAt(ss, i) && AgreesAt(ss, i + 1);
        StepKeepsAt(ss, steps, i, ttl);
      }
    }
  }

  ghost predicate StaysCoveredAt(ss: seq<State>, i: nat, ttl: nat)
    requires i < |ss|
  {
    StaysCovered(ss[i], ttl)
  }

  lemma CoveredAtIff(ss: seq<State>, steps: seq<Step>, i: nat, ttl: nat)
    requires Run(ss, steps, ttl) && i < |ss| && 0 < ttl
    ensures StaysCoveredAt(ss, i, ttl) <==> AgreesAt(ss, i)
  {
    ReachableOrderly(ss, steps, i, ttl);
    StaysCoveredIff(ss[i], ttl);
  }

  /**
    In every state of a run every queued prekey frame is covered, and stays
    covered at whatever readings sweeps come, exactly when every admission of the
    run found tables that still fit its message.
   */
  lemma ReachableCoverage(ss: seq<State>, steps: seq<Step>, n: nat, ttl: nat)
    requires Run(ss, steps, ttl) && n < |ss| && 0 < ttl
    ensures (forall i :: 0 <= i <= n ==> StaysCoveredAt(ss, i, ttl)) <==>
            (forall i :: 0 <= i < n ==> StepFitsAt(ss, steps, i, ttl))
  {
    AgreeingRunFits(ss, steps, n, ttl);
    forall i | 0 <= i <= n ensures StaysCoveredAt(ss, i, ttl) <==> AgreesAt(ss, i) {
      CoveredAtIff(ss, steps, i, ttl);
    }
  }

  // ---- Agreement from the replay table ------------------------------------

  /** Every queued frame still has its replay id, registered no earlier than the frame was queued. */
  ghost predicate ReplayTracks(pending: Pending, ids: ReplayIds) {
    forall k, pf :: Queued(pending, k, pf) ==>
      ReplayKeyOf(pf.frame) in ids && ids[ReplayKeyOf(pf.frame)] >= pf.enqueuedAt
  }

  /**
    Readings in order, frames that cannot outlive the replay window, and leases
    still held at the dry run's own sweep.
   */
  ghost predicate Timely(s: State, step: Step, ttl: nat) {
    step.Route? ==>
      && Monotone(step.clock)
      && ttl + (step.clock.register - step.clock.preflight) <= REPLAY_WINDOW_MS
      && (Admits(s, step, ttl) ==>
            LeasesHeld(Prune(s, step.clock.preflight, ttl).leases, s.accounts, step.message.deliveries))
  }

  lemma ReadyQueued(s: State, c: Clock, ttl: nat, k: PendingKey, pf: PendingFrame)
    ensures Queued(Admitting(s, c, ttl).books.pending, k, pf) ==> Queued(s.books.pending, k, pf)
    ensures Queued(Ready(s, c, ttl).books.pending, k, pf) ==>
            Queued(s.books.pending, k, pf) && !Expired(pf, c.preflight, ttl)
  {
    PrunedQueued(s.books.pending, c.sweep, ttl, k, pf);
    PrunedQueued(Admitting(s, c, ttl).books.pending, c.preflight, ttl, k, pf);
  }

  /** The replay ids that a timely admission keeps still track the frames its dry run sees. */
  lemma ReadyTracks(s: State, c: Clock, ttl: nat)
    requires ReplayTracks(s.books.pending, s.replayIds)
    ensures ReplayTracks(Admitting(s, c, ttl).books.pending, s.replayIds)
    ensures ReplayTracks(Ready(s, c, ttl).books.pending, s.replayIds)
    ensures Monotone(c) && ttl + (c.register - c.preflight) <= REPLAY_WINDOW_MS ==>
            ReplayTracks(Ready(s, c, ttl).books.pending, LiveReplayIds(s.replayIds, c.register))
  {
    forall k, pf
      ensures Queued(Admitting(s, c, ttl).books.pending, k, pf) ==> Queued(s.books.pending, k, pf)
      ensures Queued(Ready(s, c, ttl).books.pending, k, pf) ==>
              Queued(s.books.pending, k, pf) && !Expired(pf, c.preflight, ttl)
    {
      ReadyQueued(s, c, ttl, k, pf);
    }
  }

  lemma CommittedTracks(b: Books, ids: ReplayIds, m: Message, c: Clock)
    requires Prepared(m) && Monotone(c) && ReplayTracks(b.pending, ids)
    requires ReplayKey(m.chat, m.sender, m.message) !in ids
    ensures ReplayTracks(PushAll(b, EntriesOf(m), c.commit).pending,
                         ids[ReplayKey(m.chat, m.sender, m.message) := c.register])
  {
    var entries := EntriesOf(m);
    var p := PushAll(b, entries, c.commit).pending;
    var key := ReplayKey(m.chat, m.sender, m.message);
    forall k, pf | Queued(p, k, pf)
      ensures if ReplayKeyOf(pf.frame) == key then pf.enqueuedAt == c.commit else Queued(b.pending, k, pf)
    {
      QueuedAfterPush(b, entries, |entries|, c.commit, k, pf);
      if !Queued(b.pending, k, pf) {
        var i :| 0 <= i < |entries| && entries[i].key == k && pf == PendingFrame(entries[i].frame, c.commit);
        assert entries[i].frame == m.deliveries[i].frame;
      }
    }
  }

  /** A timely admission fits: a replay id that was gone leaves no queued copy of the message. */
  lemma TimelyRoute(s: State, m: Message, c: Clock, ttl: nat)
    requires ReplayTracks(s.books.pending, s.replayIds) && Prepared(m) && Timely(s, Route(m, c), ttl)
    ensures StepFits(s, Route(m, c), ttl)
    ensures var t := Routed(s, m, c, ttl); ReplayTracks(t.books.pending, t.replayIds)
  {
    ReadyTracks(s, c, ttl);
    if RouteOutcome(s, m, c, ttl) == Admitted {
      ReadyIsPruned(s, c, ttl);
      CommittedTracks(Ready(s, c, ttl).books, LiveReplayIds(s.replayIds, c.register), m, c);
    }
  }

  lemma AckAddsNothing(s: State, a: Ack, now: nat, ttl: nat, k: PendingKey, pf: PendingFrame)
    ensures Queued(Acknowledged(s, a, now, ttl).books.pending, k, pf) ==> Queued(s.books.pending, k, pf)
  {
    var s1 := Prune(s, now, ttl);
    PrunedQueued(s.books.pending, now, ttl, k, pf);
    if exists i :: AckAccepted(s1, a, i) {
      var i :| AckAccepted(s1, a, i) && Acknowledged(s, a, now, ttl) == Acked(s1, a, i);
      DequeuedQueued(s1.books.pending, AckKey(a), i, k, pf);
    }
  }

  /** No step but a wipe and an admission touches the replay table. */
  lemma OthersKeepIds(s: State, step: Step, ttl: nat)
    requires !step.Route? && !step.Wipe?
    ensures Next(s, step, ttl).replayIds == s.replayIds
  {
  }

  /** No step but an admission adds a frame. */
  lemma OthersAddNothing(s: State, step: Step, ttl: nat, k: PendingKey, pf: PendingFrame)
    requires !step.Route?
    ensures Queued(Next(s, step, ttl).books.pending, k, pf) ==> Queued(s.books.pending, k, pf)
  {
    match step
    case Sweep(now) => PrunedQueued(s.books.pending, now, ttl, k, pf);
    case LeaseRequest(r, sweep, now) => PrunedQueued(s.books.pending, sweep, ttl, k, pf);
    case Acknowledge(a, now) => AckAddsNothing(s, a, now, ttl, k, pf);
    case _ =>
  }

  lemma TimelyStep(s: State, step: Step, ttl: nat)
    requires ReplayTracks(s.books.pending, s.replayIds) && Callable(s, step) && Timely(s, step, ttl)
    ensures StepFits(s, step, ttl)
    ensures var t := Next(s, step, ttl); ReplayTracks(t.books.pending, t.replayIds)
  {
    if step.Route? {
      TimelyRoute(s, step.message, step.clock, ttl);
    } else if !step.Wipe? {
      var t := Next(s, step, ttl);
      OthersKeepIds(s, step, ttl);
      forall k, pf ensures Queued(t.books.pending, k, pf) ==> Queued(s.books.pending, k, pf) {
        OthersAddNothing(s, step, ttl, k, pf);
      }
    }
  }

  lemma {:induction false} TimelyRunFits(ss: seq<State>, steps: seq<Step>, n: nat, ttl: nat)
    requires Run(ss, steps, ttl) && n < |ss|
    requires forall i :: 0 <= i < n ==> Timely(ss[i], steps[i], ttl)
    ensures Agrees(ss[n]) && ReplayTracks(ss[n].books.pending, ss[n].replayIds)
  {
    if n > 0 {
      TimelyRunFits(ss, steps, n - 1, ttl);
      assert StepAt(ss, steps, n - 1, ttl);
      StepKeeps(ss[n - 1], steps[n - 1], ttl);
      TimelyStep(ss[n - 1], steps[n - 1], ttl);
    }
  }

  /** Over a run of timely steps every queued frame stays covered and keeps its replay id. */
  lemma TimelyRunsAgree(ss: seq<State>, steps: seq<Step>, n: nat, ttl: nat)
    requires Run(ss, steps, ttl) && n < |ss|
    requires forall i :: 0 <= i < n ==> Timely(ss[i], steps[i], ttl)
    ensures FramesCovered(ss[n]) && StaysCovered(ss[n], ttl)
    ensures ReplayTracks(ss[n].books.pending, ss[n].replayIds)
  {
    TimelyRunFits(ss, steps, n, ttl);
    StaysCoveredIff(ss[n], ttl);
  }

  // ---- One replay id over a run -------------------------------------------

  function KeyOf(m: Message): ReplayKey {
    ReplayKey(m.chat, m.sender, m.message)
  }

  predicate NoWipe(steps: seq<Step>, from: nat, to: nat)
    requires from <= to <= |steps|
  {
    forall k :: from <= k < to ==> !steps[k].Wipe?
  }

  /** The k-th step takes a registration reading at least one replay window after `since`. */
  predicate WindowPassed(steps: seq<Step>, k: nat, since: nat)
    requires k < |steps|
  {
    steps[k].Route? && steps[k].clock.register >= since + REPLAY_WINDOW_MS
  }

  predicate ReadingsOrdered(steps: seq<Step>) {
    forall i, j :: 0 <= i < j < |steps| && steps[i].Route? && steps[j].Route? ==>
      steps[i].clock.register <= steps[j].clock.register
  }

  predicate Remembers(s: State, key: ReplayKey, since: nat) {
    key in s.replayIds && s.replayIds[key] >= since
  }

  lemma RouteRemembers(s: State, m: Message, c: Clock, ttl: nat, key: ReplayKey, since: nat)
    requires Remembers(s, key, since) && c.register < since + REPLAY_WINDOW_MS
    ensures Remembers(Routed(s, m, c, ttl), key, since)
    ensures RouteOutcome(s, m, c, ttl) == Admitted ==> KeyOf(m) != key
  {
    assert key in LiveReplayIds(s.replayIds, c.register);
  }

  /** A replay id is forgotten or renewed only at a reading one window after its registration. */
  lemma StepRemembers(s: State, step: Step, ttl: nat, key: ReplayKey, since: nat)
    requires Remembers(s, key, since) && !step.Wipe?
    ensures Remembers(Next(s, step, ttl), key, since)
         || (step.Route? && step.clock.register >= since + REPLAY_WINDOW_MS)
    ensures Admits(s, step, ttl) && KeyOf(step.message) == key ==>
            step.clock.register >= since + REPLAY_WINDOW_MS
  {
    if !step.Route? {
      OthersKeepIds(s, step, ttl);
    } else if step.clock.register < since + REPLAY_WINDOW_MS {
      RouteRemembers(s, step.message, step.clock, ttl, key, since);
    }
  }

  lemma AdmissionRemembers(s: State, step: Step, ttl: nat)
    requires Admits(s, step, ttl)
    ensures Remembers(Next(s, step, ttl), KeyOf(step.message), step.clock.register)
  {
  }

  lemma {:induction false} RunRemembers(ss: seq<State>, steps: seq<Step>, m: nat, n: nat, ttl: nat,
                                        key: ReplayKey, since: nat)
    requires Run(ss, steps, ttl) && m <= n <= |steps| && NoWipe(steps, m, n)
    requires Remembers(ss[m], key, since)
    ensures Remembers(ss[n], key, since) || exists k :: m <= k < n && WindowPassed(steps, k, since)
  {
    if m < n {
      RunRemembers(ss, steps, m, n - 1, ttl, key, since);
      if Remembers(ss[n - 1], key, since) {
        assert StepAt(ss, steps, n - 1, ttl);
        StepRemembers(ss[n - 1], steps[n - 1], ttl, key, since);
        assert Remembers(ss[n], key, since) || WindowPassed(steps, n - 1, since);
      }
    }
  }

  /**
    Between two admissions of one (chat, sender, message) the registration clock
    reads at least one replay window more than at the first one; with readings
    in order, the admissions themselves are that far apart.
   */
  lemma AdmissionsSpaced(ss: seq<State>, steps: seq<Step>, i: nat, j: nat, ttl: nat)
    requires Run(ss, steps, ttl) && i < j < |steps| && NoWipe(steps, i, j)
    requires Admits(ss[i], steps[i], ttl) && Admits(ss[j], steps[j], ttl)
    requires KeyOf(steps[i].message) == KeyOf(steps[j].message)
    ensures exists k :: i < k <= j && WindowPassed(steps, k, steps[i].clock.register)
    ensures ReadingsOrdered(steps) ==>
            steps[j].clock.register >= steps[i].clock.register + REPLAY_WINDOW_MS
  {
    var key, since := KeyOf(steps[i].message), steps[i].clock.register;
    assert Remembers(ss[i + 1], key, since) by {
      assert StepAt(ss, steps, i, ttl);
      AdmissionRemembers(ss[i], steps[i], ttl);
    }
    RunRemembers(ss, steps, i + 1, j, ttl, key, since);
    if Remembers(ss[j], key, since) {
      assert WindowPassed(steps, j, since) by { StepRemembers(ss[j], steps[j], ttl, key, since); }
    }
  }

  // ---- One revision over a run --------------------------------------------

  /** The step accepts this identity-state revision for the account, in either mode. */
  ghost predicate Accepts(s: State, step: Step, ttl: nat, code: CodeId, revision: nat) {
    match step
    case Route(m, _) => Admits(s, step, ttl) && m.senderCode == code && m.update.revision == revision
    case Acknowledge(a, now) =>
      (exists i :: AckAccepted(Prune(s, now, ttl), a, i)) && a.code == code && a.update.revision == revision
    case UpdateIdentity(c, u) => Updatable(s, c, u) && c == code && u.revision == revision
    case _ => false
  }

  ghost predicate Spent(s: State, code: CodeId, name: Name, revision: nat) {
    IsCodeOf(s.accounts, code, name) && RevisionWindow.Spent(s.accounts[code].window, revision)
  }

  /** An identity state is accepted only if its revision was open; afterwards it is spent. */
  lemma AppliedSpends(a: Account, u: Update, allowReuse: bool, consumed: Option<Name>, other: nat)
    requires Applied(a, u, allowReuse, consumed).Some?
    ensures var b := Applied(a, u, allowReuse, consumed).value;
      && b.username == a.username
      && RevisionWindow.Spent(b.window, u.revision)
      && (RevisionWindow.Spent(a.window, other) ==> RevisionWindow.Spent(b.window, other))
    ensures !allowReuse ==> !RevisionWindow.Spent(a.window, u.revision)
  {
    RevisionWindow.OfferSpends(a.window, u.revision, allowReuse, other);
  }

  lemma RouteSpends(s: State, m: Message, c: Clock, ttl: nat, code: CodeId, name: Name, revision: nat)
    requires IsCodeOf(s.accounts, code, name)
    ensures var t, accepted := Routed(s, m, c, ttl), Accepts(s, Route(m, c), ttl, code, revision);
      && IsCodeOf(t.accounts, code, name)
      && (Spent(s, code, name, revision) ==> Spent(t, code, name, revision) && !accepted)
      && (accepted ==> Spent(t, code, name, revision))
  {
    if RouteOutcome(s, m, c, ttl) == Admitted && m.senderCode == code {
      AppliedSpends(s.accounts[code], m.update, false, None, revision);
    }
  }

  lemma AckSpends(s: State, a: Ack, now: nat, ttl: nat, code: CodeId, name: Name, revision: nat)
    requires IsCodeOf(s.accounts, code, name)
    ensures var t, accepted := Acknowledged(s, a, now, ttl), Accepts(s, Acknowledge(a, now), ttl, code, revision);
      && IsCodeOf(t.accounts, code, name)
      && (Spent(s, code, name, revision) || accepted ==> Spent(t, code, name, revision))
  {
    var s1 := Prune(s, now, ttl);
    if exists i :: AckAccepted(s1, a, i) {
      var i :| AckAccepted(s1, a, i) && Acknowledged(s, a, now, ttl) == Acked(s1, a, i);
      if a.code == code { AppliedSpends(s.accounts[code], a.update, true, Consumed(a), revision); }
    }
  }

  /** A spent revision stays spent, an accepted one becomes spent, and names stay with their codes. */
  lemma StepSpends(s: State, step: Step, ttl: nat, code: CodeId, name: Name, revision: nat)
    requires !step.Wipe? && IsCodeOf(s.accounts, code, name) && Callable(s, step)
    ensures IsCodeOf(Next(s, step, ttl).accounts, code, name)
    ensures Spent(s, code, name, revision) || Accepts(s, step, ttl, code, revision) ==>
            Spent(Next(s, step, ttl), code, name, revision)
    ensures Spent(s, code, name, revision) && Accepts(s, step, ttl, code, revision) ==> !step.Route?
  {
    match step
    case Route(m, c) => RouteSpends(s, m, c, ttl, code, name, revision);
    case Acknowledge(a, now) => AckSpends(s, a, now, ttl, code, name, revision);
    case UpdateIdentity(c, u) =>
      if Updatable(s, c, u) && c == code { AppliedSpends(s.accounts[code], u, true, None, revision); }
    case _ =>
  }

  lemma {:induction false} RunSpends(ss: seq<State>, steps: seq<Step>, m: nat, n: nat, ttl: nat,
                                     code: CodeId, name: Name, revision: nat)
    requires Run(ss, steps, ttl) && m <= n <= |steps| && NoWipe(steps, m, n)
    requires Spent(ss[m], code, name, revision)
    ensures Spent(ss[n], code, name, revision)
  {
    if m < n {
      RunSpends(ss, steps, m, n - 1, ttl, code, name, revision);
      assert StepAt(ss, steps, n - 1, ttl);
      StepSpends(ss[n - 1], steps[n - 1], ttl, code, name, revision);
    }
  }

  lemma AcceptanceSpends(ss: seq<State>, steps: seq<Step>, i: nat, ttl: nat, code: CodeId, name: Name, revision: nat)
    requires Run(ss, steps, ttl) && i < |steps| && !steps[i].Wipe?
    requires IsCodeOf(ss[i].accounts, code, name) && Accepts(ss[i], steps[i], ttl, code, revision)
    ensures Spent(ss[i + 1], code, name, revision)
  {
    assert StepAt(ss, steps, i, ttl);
    StepSpends(ss[i], steps[i], ttl, code, name, revision);
  }

  /**
    Once an account's revision has been accepted, by a message, an
    acknowledgement or an identity update, no later message from the holder of
    that account's name is admitted with it.
   */
  lemma RevisionAdmittedOnce(ss: seq<State>, steps: seq<Step>, i: nat, j: nat, ttl: nat,
                             code: CodeId, name: Name, revision: nat)
    requires Run(ss, steps, ttl) && i < j < |steps| && NoWipe(steps, i, j)
    requires IsCodeOf(ss[i].accounts, code, name) && Accepts(ss[i], steps[i], ttl, code, revision)
    requires Admits(ss[j], steps[j], ttl) && steps[j].message.sender == name
    ensures steps[j].message.update.revision != revision
  {
    AcceptanceSpends(ss, steps, i, ttl, code, name, revision);
    RunSpends(ss, steps, i + 1, j, ttl, code, name, revision);
    SpentNotAdmitted(ss, steps, j, ttl, code, name, revision);
  }

  lemma SpentNotAdmitted(ss: seq<State>, steps: seq<Step>, j: nat, ttl: nat, code: CodeId, name: Name, revision: nat)
    requires Run(ss, steps, ttl) && j < |steps| && Spent(ss[j], code, name, revision)
    requires Admits(ss[j], steps[j], ttl) && steps[j].message.sender == name
    ensures steps[j].message.update.revision != revision
  {
    ReachableOrderly(ss, steps, j, ttl);
    assert StepAt(ss, steps, j, ttl);
    StepSpends(ss[j], steps[j], ttl, code, name, revision);
  }
}
