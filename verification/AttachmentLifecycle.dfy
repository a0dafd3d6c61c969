/** Every run of the attachment operations: claims, completions, limits and lifetimes. */
module AttachmentLifecycle {
  import opened Basics
  import opened Totals
  import opened Attachments

  // ---- What holds of every record -----------------------------------------

  ghost predicate ClaimsExclusive(r: Record) {
    && (forall c :: c in r.claims ==> r.claims[c].recipient in r.eligible - r.completed)
    && (forall c, d :: c in r.claims && d in r.claims && r.claims[c].recipient == r.claims[d].recipient ==> c == d)
  }

  ghost predicate RecordOk(r: Record) {
    && r.size > 0
    && (r.published <==> r.stagedUntil.None?)
    && (!r.published || !Destructive(r) ==> r.claims == map[] && r.completed == {})
    && r.completed <= r.eligible
    && ClaimsExclusive(r)
  }

  /** Claims begin before the record expires, up to the lag between a check and the claim it admits. */
  ghost predicate ClaimsTimely(r: Record, lag: nat) {
    forall c :: c in r.claims ==> r.claims[c].createdAt < r.expires + lag
  }

  ghost predicate AllOk(rs: Records, lag: nat) {
    forall id :: id in rs ==> RecordOk(rs[id]) && ClaimsTimely(rs[id], lag)
  }

  ghost predicate UniqueKeys(rs: Records) {
    forall i, j :: i in rs && j in rs && rs[i].key == rs[j].key ==> i == j
  }

  ghost predicate Within(rs: Records, limits: Limits) {
    && Total(rs, Size()) <= limits.ram && |rs| <= limits.records
    && (forall o :: OwnerWithin(rs, o, limits))
  }

  ghost predicate OwnerWithin(rs: Records, owner: Code, limits: Limits) {
    OwnerBytes(rs, owner) <= limits.account && Total(rs, Counted(owner)) <= limits.accountRecords
  }

  // ---- How a record may develop -------------------------------------------

  /** This recipient can take no further claim. */
  predicate Closed(r: Record, code: Code) {
    code in r.completed || code !in r.eligible
  }

  /** Publication is final, and a recipient once closed stays closed. */
  ghost predicate Follows(r: Record, s: Record) {
    && s.key == r.key && s.size == r.size && s.expires == r.expires
    && s.oneTime == r.oneTime && s.deleteAfter == r.deleteAfter
    && (s.stagedUntil.Some? ==> s.stagedUntil == r.stagedUntil)
    && (r.published ==> s.published && forall code :: Closed(r, code) ==> Closed(s, code))
  }

  ghost predicate Succeeds(rs: Records, ss: Records, lag: nat) {
    ss.Keys <= rs.Keys && AllOk(ss, lag) && forall id :: id in ss ==> Follows(rs[id], ss[id])
  }

  lemma SucceedsTrans(rs: Records, ss: Records, ts: Records, lag: nat)
    requires Succeeds(rs, ss, lag) && Succeeds(ss, ts, lag)
    ensures Succeeds(rs, ts, lag)
  {
    forall id | id in ts ensures Follows(rs[id], ts[id]) {
      assert Follows(rs[id], ss[id]) && Follows(ss[id], ts[id]);
    }
  }

  lemma UpdateSucceeds(rs: Records, id: Id, s: Record, lag: nat)
    requires AllOk(rs, lag) && id in rs && Follows(rs[id], s) && RecordOk(s) && ClaimsTimely(s, lag)
    ensures Succeeds(rs, rs[id := s], lag)
  {
  }

  /** Uniqueness and the limits survive every change that adds no record. */
  lemma SuccessionKeepsLimits(rs: Records, ss: Records, lag: nat, limits: Limits)
    requires Succeeds(rs, ss, lag) && UniqueKeys(rs) && Within(rs, limits)
    ensures UniqueKeys(ss) && Within(ss, limits)
  {
    forall id | id in ss ensures ss[id].size == rs[id].size && ss[id].key == rs[id].key {
      assert Follows(rs[id], ss[id]);
    }
    TotalMonotone(rs, ss, Size());
    forall o ensures OwnerWithin(ss, o, limits) {
      assert OwnerWithin(rs, o, limits);
      OwnerShrinks(rs, ss, o, limits);
    }
    FewerKeys(rs, ss);
  }

  lemma OwnerShrinks(rs: Records, ss: Records, owner: Code, limits: Limits)
    requires ss.Keys <= rs.Keys && OwnerWithin(rs, owner, limits)
    requires forall id :: id in ss ==> ss[id].size == rs[id].size && ss[id].key == rs[id].key
    ensures OwnerWithin(ss, owner, limits)
  {
    TotalMonotone(rs, ss, Owned(owner));
    TotalMonotone(rs, ss, Counted(owner));
  }

  lemma FewerKeys(rs: Records, ss: Records)
    requires ss.Keys <= rs.Keys
    ensures |ss| <= |rs|
  {
    SubsetSize(ss.Keys, rs.Keys);
  }

  lemma {:induction false} SubsetSize<T>(a: set<T>, b: set<T>)
    requires a <= b
    ensures |a| <= |b|
  {
    assert |b - a| == |b| - |a|;
  }

  // ---- The operations, one by one -----------------------------------------

  lemma RemovalSucceeds(rs: Records, ss: Records, lag: nat)
    requires AllOk(rs, lag) && ss.Keys <= rs.Keys && forall id :: id in ss ==> ss[id] == rs[id]
    ensures Succeeds(rs, ss, lag)
  {
  }

  lemma SweepSucceeds(rs: Records, now: nat, lag: nat)
    requires AllOk(rs, lag)
    ensures Succeeds(rs, Sweep(rs, now), lag)
  {
  }

  lemma LookupSucceeds(rs: Records, key: BindingKey, now: nat, lag: nat)
    requires AllOk(rs, lag)
    ensures Succeeds(rs, LookedUp(rs, key, now).0, lag)
    ensures var (found, staging) := LookedUp(rs, key, now);
      staging.Staged? ==> staging.id in found && found[staging.id].key == key && !found[staging.id].published
  {
    if HasKey(rs, key) {
      var id := IdOf(rs, key);
      UpdateSucceeds(rs, id, LiveClaims(rs[id], now), lag);
    }
  }

  lemma PublishSucceeds(rs: Records, id: Id, now: nat, lag: nat)
    requires AllOk(rs, lag) && id in rs
    ensures Succeeds(rs, Published(rs, id, now), lag)
  {
    UpdateSucceeds(rs, id, rs[id].(published := true, stagedUntil := None), lag);
  }

  /**
    The send of a group message changes the staged record in one of three ways:
    not at all, into the published record with the message's recipients, or,
    when its staging deadline has passed meanwhile, by removing it. A rollback
    restores the recipients, the deadline and the staged state exactly.
   */
  lemma GroupSendOutcome(rs: Records, id: Id, recipients: set<Code>, now: nat, committed: bool)
    requires id in rs && !rs[id].published && (rs[id].published <==> rs[id].stagedUntil.None?)
    ensures var ts, r := GroupSent(rs, id, recipients, now, committed), rs[id];
      var uses := r.oneTime || r.deleteAfter;
      var inTime := now < r.stagedUntil.value && now < r.expires;
      if (uses && recipients == {}) || (inTime && !committed) then ts == rs
      else if inTime then
        ts == rs[id := r.(published := true, stagedUntil := None, eligible := if uses then recipients else r.eligible)]
      else ts == rs - {id}
  {
    var saved := rs[id];
    if CanRebind(saved, recipients) && CanPublish(saved, now) && !committed {
      var published := Published(rs[id := Rebound(saved, recipients)], id, now);
      assert RolledBack(published, id, saved) == rs[id := saved];
      assert rs[id := saved] == rs;
    }
  }

  lemma GroupSendSucceeds(rs: Records, id: Id, recipients: set<Code>, now: nat, committed: bool, lag: nat)
    requires AllOk(rs, lag) && id in rs && !rs[id].published
    ensures Succeeds(rs, GroupSent(rs, id, recipients, now, committed), lag)
  {
    GroupSendOutcome(rs, id, recipients, now, committed);
    assert RecordOk(rs[id]);
    UpdateSucceeds(rs, id, Rebound(rs[id], recipients).(published := true, stagedUntil := None), lag);
  }

  lemma SendSucceeds(rs: Records, s: Send, lag: nat)
    requires AllOk(rs, lag)
    ensures Succeeds(rs, Sent(rs, s), lag)
  {
    LookupSucceeds(rs, s.key, s.lookupAt, lag);
    var (found, staging) := LookedUp(rs, s.key, s.lookupAt);
    if staging.Staged? {
      if s.recipients.Some? {
        GroupSendSucceeds(found, staging.id, s.recipients.value, s.publishAt, s.committed, lag);
      } else {
        PublishSucceeds(found, staging.id, s.publishAt, lag);
      }
      SucceedsTrans(rs, found, Sent(rs, s), lag);
    }
  }

  lemma ReserveInFollows(r: Record, requester: Code, allowed: bool, reuse: bool, newClaim: Id, t: Readings, lag: nat)
    requires RecordOk(r) && ClaimsTimely(r, lag) && r.published && newClaim !in r.claims
    requires t.check < r.expires && t.create <= t.check + lag
    ensures var s := ReserveIn(r, requester, allowed, reuse, newClaim, t).0;
      Follows(r, s) && RecordOk(s) && ClaimsTimely(s, lag)
  {
  }

  lemma ReserveSucceeds(rs: Records, id: Id, requester: Code, allowed: bool, reuse: bool, newClaim: Id, t: Readings,
                        lag: nat)
    requires AllOk(rs, lag) && t.create <= t.check + lag && (id in rs ==> newClaim !in rs[id].claims)
    ensures Succeeds(rs, Reserved(rs, id, requester, allowed, reuse, newClaim, t).0, lag)
  {
    SweepSucceeds(rs, t.sweep, lag);
    var swept := Sweep(rs, t.sweep);
    var ts := Reserved(rs, id, requester, allowed, reuse, newClaim, t).0;
    if id in swept && swept[id].published && t.check < swept[id].expires {
      ReserveInFollows(swept[id], requester, allowed, reuse, newClaim, t, lag);
      UpdateSucceeds(swept, id, ReserveIn(swept[id], requester, allowed, reuse, newClaim, t).0, lag);
    }
    SucceedsTrans(rs, swept, ts, lag);
  }

  lemma CompleteSucceeds(rs: Records, id: Id, requester: Code, claim: Id, now: nat, lag: nat)
    requires AllOk(rs, lag)
    ensures Succeeds(rs, Completed(rs, id, requester, claim, now), lag)
  {
    if HasClaim(rs, id, claim) && rs[id].claims[claim].recipient == requester {
      var r := rs[id].(claims := rs[id].claims - {claim});
      UpdateSucceeds(rs, id, r, lag);
      if Completes(rs, id, requester, claim, now) {
        UpdateSucceeds(rs, id, r.(completed := r.completed + {requester}), lag);
      }
    }
  }

  /** A completion removes the record exactly when every remaining eligible recipient has completed. */
  lemma CompletionRemovesLast(rs: Records, id: Id, requester: Code, claim: Id, now: nat, lag: nat)
    requires AllOk(rs, lag) && Completes(rs, id, requester, claim, now)
    ensures var ts := Completed(rs, id, requester, claim, now);
      && requester in rs[id].eligible - rs[id].completed
      && (id !in ts <==> forall code :: code in rs[id].eligible && code != requester ==> code in rs[id].completed)
      && (id in ts ==> requester in ts[id].completed && claim !in ts[id].claims)
      && (forall other :: other in rs && other != id ==> other in ts && ts[other] == rs[other])
  {
    assert RecordOk(rs[id]);
    assert rs[id].eligible <= rs[id].completed + {requester}
      <==> forall code :: code in rs[id].eligible && code != requester ==> code in rs[id].completed;
  }

  lemma ReleaseSucceeds(rs: Records, id: Id, requester: Code, claim: Id, lag: nat)
    requires AllOk(rs, lag)
    ensures Succeeds(rs, ClaimReleased(rs, id, requester, claim), lag)
  {
    if HasClaim(rs, id, claim) && rs[id].claims[claim].recipient == requester {
      UpdateSucceeds(rs, id, rs[id].(claims := rs[id].claims - {claim}), lag);
    }
  }

  lemma RevokeSucceeds(rs: Records, chat: Name, code: Code, lag: nat)
    requires AllOk(rs, lag)
    ensures Succeeds(rs, Revoked(rs, chat, code), lag)
  {
    forall id | id in rs
      ensures Follows(rs[id], WithoutRecipient(rs[id], code)) && RecordOk(WithoutRecipient(rs[id], code))
    {
      assert RecordOk(rs[id]);
    }
  }

  // ---- Whole runs ---------------------------------------------------------

  /** The records, the upload readings of every id ever given out, and every completion so far. */
  datatype World = World(records: Records, born: map<Id, UploadReadings>, done: set<(Id, Code)>)

  datatype Step =
    | SweepAll(now: nat)
    | UploadBlob(upload: Upload, id: Id, uploadedAt: UploadReadings)
    | SendMessage(send: Send)
    | Reserve(blob: Id, requester: Code, allowed: bool, reuse: bool, newClaim: Id, readings: Readings)
    | Complete(blob: Id, requester: Code, claim: Id, completedAt: nat)
    | Release(blob: Id, requester: Code, claim: Id)
    | Revoke(chat: Name, code: Code)
    | Delete(blob: Id, owner: Code)
    | RemoveChat(chat: Name)
    | WipeAll

  const Start := World(map[], map[], {})

  /** Ids are fresh, blobs are not empty, and a claim follows its check within the lag. */
  ghost predicate Enabled(w: World, step: Step, lag: nat) {
    match step
    case UploadBlob(u, id, _) => id !in w.born && u.size > 0
    case Reserve(id, _, _, _, newClaim, t) =>
      t.create <= t.check + lag && (id in w.records ==> newClaim !in w.records[id].claims)
    case _ => true
  }

  ghost function NextRecords(rs: Records, step: Step, limits: Limits): Records {
    match step
    case SweepAll(now) => Sweep(rs, now)
    case UploadBlob(u, id, t) => Uploaded(rs, u, id, t, limits)
    case SendMessage(s) => Sent(rs, s)
    case Reserve(id, who, allowed, reuse, newClaim, t) => Reserved(rs, id, who, allowed, reuse, newClaim, t).0
    case Complete(id, who, claim, now) => Completed(rs, id, who, claim, now)
    case Release(id, who, claim) => ClaimReleased(rs, id, who, claim)
    case Revoke(chat, code) => Revoked(rs, chat, code)
    case Delete(id, owner) => Deleted(rs, id, owner)
    case RemoveChat(chat) => ChatRemoved(rs, chat)
    case WipeAll => map[]
  }

  /** The step is a completion that succeeds. */
  predicate Finishes(rs: Records, step: Step) {
    step.Complete? && Completes(rs, step.blob, step.requester, step.claim, step.completedAt)
  }

  ghost function Next(w: World, step: Step, limits: Limits): World {
    World(NextRecords(w.records, step, limits),
          if step.UploadBlob? then w.born[step.id := step.uploadedAt] else w.born,
          if Finishes(w.records, step) then w.done + {(step.blob, step.requester)} else w.done)
  }

  /** The record's deadlines come from its upload. */
  ghost predicate Dated(r: Record, t: UploadReadings, limits: Limits) {
    && r.expires <= t.expiry + limits.maxLifetimeSec * 1000
    && (r.stagedUntil.Some? ==> r.stagedUntil.value <= t.staging + STAGING_TTL_MS && r.stagedUntil.value <= r.expires)
  }

  ghost predicate Finished(r: Record, code: Code) {
    r.published && Closed(r, code)
  }

  ghost predicate Remembered(w: World) {
    forall id, code :: (id, code) in w.done ==> id in w.born && (id in w.records ==> Finished(w.records[id], code))
  }

  ghost predicate Invariant(w: World, lag: nat, limits: Limits) {
    && AllOk(w.records, lag) && UniqueKeys(w.records) && Within(w.records, limits)
    && AllDated(w, limits) && Remembered(w)
  }

  ghost predicate AllDated(w: World, limits: Limits) {
    forall id :: id in w.records ==> id in w.born && Dated(w.records[id], w.born[id], limits)
  }

  /** A step without new records keeps the dates and the memory of completions. */
  lemma SuccessionKeeps(w: World, ss: Records, lag: nat, limits: Limits)
    requires Invariant(w, lag, limits) && Succeeds(w.records, ss, lag)
    ensures Invariant(w.(records := ss), lag, limits)
  {
    SuccessionKeepsLimits(w.records, ss, lag, limits);
    forall id | id in ss ensures id in w.born && Dated(ss[id], w.born[id], limits) {
      assert Follows(w.records[id], ss[id]) && Dated(w.records[id], w.born[id], limits);
    }
    forall id, code | (id, code) in w.done && id in ss ensures Finished(ss[id], code) {
      assert Follows(w.records[id], ss[id]) && Finished(w.records[id], code);
    }
  }

  lemma StepSucceeds(rs: Records, step: Step, lag: nat, limits: Limits)
    requires AllOk(rs, lag) && !step.UploadBlob?
    requires step.Reserve? ==> step.readings.create <= step.readings.check + lag
    requires step.Reserve? && step.blob in rs ==> step.newClaim !in rs[step.blob].claims
    ensures Succeeds(rs, NextRecords(rs, step, limits), lag)
  {
    match step
    case SweepAll(now) => SweepSucceeds(rs, now, lag);
    case SendMessage(s) => SendSucceeds(rs, s, lag);
    case Reserve(id, who, allowed, reuse, newClaim, t) =>
      ReserveSucceeds(rs, id, who, allowed, reuse, newClaim, t, lag);
    case Complete(id, who, claim, now) => CompleteSucceeds(rs, id, who, claim, now, lag);
    case Release(id, who, claim) => ReleaseSucceeds(rs, id, who, claim, lag);
    case Revoke(chat, code) => RevokeSucceeds(rs, chat, code, lag);
    case Delete(id, owner) => RemovalSucceeds(rs, Deleted(rs, id, owner), lag);
    case RemoveChat(chat) => RemovalSucceeds(rs, ChatRemoved(rs, chat), lag);
    case WipeAll =>
  }

  lemma UploadKeeps(w: World, u: Upload, id: Id, t: UploadReadings, lag: nat, limits: Limits)
    requires Invariant(w, lag, limits) && id !in w.born && u.size > 0
    ensures Invariant(Next(w, UploadBlob(u, id, t), limits), lag, limits)
  {
    if (u.oneTime || u.deleteAfter) && u.eligible == {} {
      BirthKeeps(w, id, t, lag, limits);
    } else {
      var swept := Sweep(w.records, t.sweep);
      SweepSucceeds(w.records, t.sweep, lag);
      SuccessionKeeps(w, swept, lag, limits);
      if Accepts(swept, u, limits) {
        var r := NewRecord(u, t, limits);
        InsertWithin(swept, u, id, r, limits);
        NewRecordOk(u, t, lag, limits);
        InsertKeeps(w.(records := swept), id, r, t, lag, limits);
      } else {
        BirthKeeps(w.(records := swept), id, t, lag, limits);
      }
    }
  }

  lemma BirthKeeps(w: World, id: Id, t: UploadReadings, lag: nat, limits: Limits)
    requires Invariant(w, lag, limits) && id !in w.born
    ensures Invariant(w.(born := w.born[id := t]), lag, limits)
  {
  }

  lemma NewRecordOk(u: Upload, t: UploadReadings, lag: nat, limits: Limits)
    requires u.size > 0
    ensures var r := NewRecord(u, t, limits);
      RecordOk(r) && ClaimsTimely(r, lag) && Dated(r, t, limits)
  {
    EffectiveTtlIsLeast(u.requestedTtl, u.policy, limits.maxLifetimeSec);
  }

  lemma InsertWithin(rs: Records, u: Upload, id: Id, r: Record, limits: Limits)
    requires Within(rs, limits) && HasCapacity(rs, u, limits) && id !in rs && r.key == u.key && r.size == u.size
    ensures Within(rs[id := r], limits)
  {
    var more := rs[id := r];
    TotalUpdate(rs, Size(), id, r);
    assert more.Keys == rs.Keys + {id};
    forall o ensures OwnerWithin(more, o, limits) {
      assert OwnerWithin(rs, o, limits);
      OwnerGrows(rs, u, id, r, o, limits);
    }
  }

  lemma OwnerGrows(rs: Records, u: Upload, id: Id, r: Record, owner: Code, limits: Limits)
    requires OwnerWithin(rs, owner, limits) && HasCapacity(rs, u, limits)
    requires id !in rs && r.key == u.key && r.size == u.size
    ensures OwnerWithin(rs[id := r], owner, limits)
  {
    TotalUpdate(rs, Owned(owner), id, r);
    TotalUpdate(rs, Counted(owner), id, r);
  }

  /** A new record under a fresh id and an unused key. */
  lemma InsertKeeps(w: World, id: Id, r: Record, t: UploadReadings, lag: nat, limits: Limits)
    requires Invariant(w, lag, limits) && id !in w.born && !HasKey(w.records, r.key)
    requires RecordOk(r) && ClaimsTimely(r, lag) && Dated(r, t, limits) && Within(w.records[id := r], limits)
    ensures Invariant(w.(records := w.records[id := r], born := w.born[id := t]), lag, limits)
  {
    InsertKeepsRecords(w.records, id, r, lag);
    InsertKeepsHistory(w, id, r, t, limits);
  }

  lemma InsertKeepsRecords(rs: Records, id: Id, r: Record, lag: nat)
    requires AllOk(rs, lag) && UniqueKeys(rs) && !HasKey(rs, r.key) && RecordOk(r) && ClaimsTimely(r, lag)
    ensures AllOk(rs[id := r], lag) && UniqueKeys(rs[id := r])
  {
  }

  lemma InsertKeepsHistory(w: World, id: Id, r: Record, t: UploadReadings, limits: Limits)
    requires AllDated(w, limits) && Remembered(w) && id !in w.born && Dated(r, t, limits)
    ensures var v := w.(records := w.records[id := r], born := w.born[id := t]);
      AllDated(v, limits) && Remembered(v)
  {
  }

  lemma StepKeeps(w: World, step: Step, lag: nat, limits: Limits)
    requires Invariant(w, lag, limits) && Enabled(w, step, lag)
    ensures Invariant(Next(w, step, limits), lag, limits)
  {
    if step.UploadBlob? {
      UploadKeeps(w, step.upload, step.id, step.uploadedAt, lag, limits);
    } else {
      var ss := NextRecords(w.records, step, limits);
      StepSucceeds(w.records, step, lag, limits);
      SuccessionKeeps(w, ss, lag, limits);
      if Finishes(w.records, step) {
        CompletionRemovesLast(w.records, step.blob, step.requester, step.claim, step.completedAt, lag);
        assert step.blob in w.records;
      }
    }
  }

  /** The worlds that a sequence of steps passes through. */
  ghost predicate Run(ws: seq<World>, steps: seq<Step>, lag: nat, limits: Limits) {
    && |ws| == |steps| + 1 && ws[0] == Start
    && (forall i :: 0 <= i < |steps| ==> StepsTo(ws[i], steps[i], ws[i + 1], lag, limits))
  }

  ghost predicate StepsTo(w: World, step: Step, v: World, lag: nat, limits: Limits) {
    Enabled(w, step, lag) && v == Next(w, step, limits)
  }

  lemma StartInvariant(lag: nat, limits: Limits)
    ensures Invariant(Start, lag, limits)
  {
    forall o ensures OwnerWithin(Start.records, o, limits) {
      assert OwnerBytes(Start.records, o) == 0 == Total(Start.records, Counted(o));
    }
  }

  lemma {:induction false} ReachableInvariant(ws: seq<World>, steps: seq<Step>, n: nat, lag: nat, limits: Limits)
    requires Run(ws, steps, lag, limits) && n < |ws|
    ensures Invariant(ws[n], lag, limits)
  {
    if n == 0 {
      StartInvariant(lag, limits);
    } else {
      ReachableInvariant(ws, steps, n - 1, lag, limits);
      assert StepsTo(ws[n - 1], steps[n - 1], ws[n - 1 + 1], lag, limits);
      StepKeeps(ws[n - 1], steps[n - 1], lag, limits);
    }
  }

  // ---- At most one completion ---------------------------------------------

  predicate FinishesFor(w: World, step: Step, id: Id, code: Code) {
    Finishes(w.records, step) && step.blob == id && step.requester == code
  }

  lemma {:induction false} CompletionRemembered(ws: seq<World>, steps: seq<Step>, i: nat, n: nat, lag: nat,
                                                limits: Limits,
                                                id: Id, code: Code)
    requires Run(ws, steps, lag, limits) && i < n < |ws| && FinishesFor(ws[i], steps[i], id, code)
    ensures (id, code) in ws[n].done
  {
    if i < n - 1 { CompletionRemembered(ws, steps, i, n - 1, lag, limits, id, code); }
    assert StepsTo(ws[n - 1], steps[n - 1], ws[n - 1 + 1], lag, limits);
  }

  lemma NoSecondCompletion(ws: seq<World>, steps: seq<Step>, i: nat, j: nat, lag: nat, limits: Limits, id: Id,
                           code: Code)
    requires Run(ws, steps, lag, limits) && i < j < |steps| && FinishesFor(ws[i], steps[i], id, code)
    ensures !FinishesFor(ws[j], steps[j], id, code)
  {
    CompletionRemembered(ws, steps, i, j, lag, limits, id, code);
    ReachableInvariant(ws, steps, j, lag, limits);
    if FinishesFor(ws[j], steps[j], id, code) {
      CompletionRemovesLast(ws[j].records, id, code, steps[j].claim, steps[j].completedAt, lag);
    }
  }

  /** In every run each recipient completes the download of an attachment at most once. */
  lemma CompletesAtMostOnce(ws: seq<World>, steps: seq<Step>, i: nat, j: nat, lag: nat, limits: Limits, id: Id,
                            code: Code)
    requires Run(ws, steps, lag, limits) && i < |steps| && j < |steps|
    requires FinishesFor(ws[i], steps[i], id, code) && FinishesFor(ws[j], steps[j], id, code)
    ensures i == j
  {
    if i < j {
      NoSecondCompletion(ws, steps, i, j, lag, limits, id, code);
    } else if j < i {
      NoSecondCompletion(ws, steps, j, i, lag, limits, id, code);
    }
  }

  // ---- Bounded lifetime ---------------------------------------------------

  /** One claim period after the last moment at which a claim may begin. */
  function LastMoment(t: UploadReadings, lag: nat, limits: Limits): nat {
    t.expiry + limits.maxLifetimeSec * 1000 + CLAIM_TTL_MS + lag
  }

  /**
    Whatever was requested, an attachment is gone after any sweep from one
    millisecond before its last moment on: the upload's reading for the expiry
    plus the lifetime limit plus one claim period plus the lag of the slowest
    reservation. If it was never sent, it is gone one staging period after the
    upload's reading for the staging deadline.
   */
  lemma LifetimeIsBounded(ws: seq<World>, steps: seq<Step>, n: nat, lag: nat, limits: Limits, id: Id, now: nat)
    requires Run(ws, steps, lag, limits) && n < |ws| && id in ws[n].records
    ensures var w := ws[n];
      var r := w.records[id];
      && id in w.born
      && (now + 1 >= LastMoment(w.born[id], lag, limits) ==> id !in Sweep(w.records, now))
      && (!r.published && now >= w.born[id].staging + STAGING_TTL_MS ==> id !in Sweep(w.records, now))
      && (!r.published && now >= w.born[id].expiry + limits.maxLifetimeSec * 1000 ==> id !in Sweep(w.records, now))
  {
    ReachableInvariant(ws, steps, n, lag, limits);
    assert Dated(ws[n].records[id], ws[n].born[id], limits) && RecordOk(ws[n].records[id]);
  }

  const TheKey := BindingKey(1, "", "")
  const AtZero := UploadReadings(0, 0, 0)

  /** A one-time blob for one recipient, its lifetime left to the relay. */
  const TheUpload := Upload(TheKey, 1, 0, None, true, false, {2})

  /** Upload, send, and a reservation in the last millisecond whose claim is dated `lag` later. */
  function LateClaim(lag: nat, limits: Limits): seq<Step>
    requires limits.maxLifetimeSec > 0
  {
    var last := limits.maxLifetimeSec * 1000 - 1;
    [UploadBlob(TheUpload, 7, AtZero),
     SendMessage(Send(TheKey, None, 0, 0, true)),
     Reserve(7, 2, true, true, 5, Readings(last, last, last + lag))]
  }

  function TheRecord(published: bool, limits: Limits, claims: map<Id, Claim>): Record {
    var expires := limits.maxLifetimeSec * 1000;
    Record(TheKey, 1, published, if published then None else Some(Min(STAGING_TTL_MS, expires)),
           true, false, expires, {2}, claims, {})
  }

  function Claims(lag: nat, limits: Limits): map<Id, Claim>
    requires limits.maxLifetimeSec > 0
  {
    map[5 := Claim(2, limits.maxLifetimeSec * 1000 - 1 + lag)]
  }

  function WorldWith(r: Record): World {
    World(map[7 := r], map[7 := AtZero], {})
  }

  /** Limits that admit the blob, and a lifetime that the clock can hold. */
  predicate Roomy(limits: Limits) {
    && limits.ram > 0 && limits.account > 0 && limits.records > 0 && limits.accountRecords > 0
    && 0 < limits.maxLifetimeSec && limits.maxLifetimeSec * 1000 <= U64_MAX
  }

  lemma UploadStages(limits: Limits)
    requires Roomy(limits)
    ensures Uploaded(map[], TheUpload, 7, AtZero, limits) == map[7 := TheRecord(false, limits, map[])]
  {
    assert Sweep(map[], 0) == map[];
    assert HasCapacity(map[], TheUpload, limits);
    assert NewRecord(TheUpload, AtZero, limits) == TheRecord(false, limits, map[]);
  }

  lemma UploadStep(lag: nat, limits: Limits)
    requires Roomy(limits)
    ensures StepsTo(Start, LateClaim(lag, limits)[0], WorldWith(TheRecord(false, limits, map[])), lag, limits)
  {
    UploadStages(limits);
  }

  lemma SendPublishes(limits: Limits)
    requires Roomy(limits)
    ensures Sent(map[7 := TheRecord(false, limits, map[])], Send(TheKey, None, 0, 0, true))
         == map[7 := TheRecord(true, limits, map[])]
  {
    var rs := map[7 := TheRecord(false, limits, map[])];
    assert HasKey(rs, TheKey) by { assert rs[7].key == TheKey; }
    assert IdOf(rs, TheKey) == 7;
    assert LiveClaims(rs[7], 0) == rs[7];
  }

  lemma SendStep(lag: nat, limits: Limits)
    requires Roomy(limits)
    ensures StepsTo(WorldWith(TheRecord(false, limits, map[])), LateClaim(lag, limits)[1],
                    WorldWith(TheRecord(true, limits, map[])), lag, limits)
  {
    SendPublishes(limits);
  }

  lemma ReserveClaims(lag: nat, limits: Limits)
    requires Roomy(limits)
    ensures var last := limits.maxLifetimeSec * 1000 - 1;
      Reserved(map[7 := TheRecord(true, limits, map[])], 7, 2, true, true, 5, Readings(last, last, last + lag)).0
      == map[7 := TheRecord(true, limits, Claims(lag, limits))]
  {
    var last := limits.maxLifetimeSec * 1000 - 1;
    var r := TheRecord(true, limits, map[]);
    var rs := map[7 := r];
    assert LiveClaims(r, last) == r;
    assert Sweep(rs, last) == rs;
    assert !HoldsClaim(r, 2);
  }

  lemma ReserveStep(lag: nat, limits: Limits)
    requires Roomy(limits)
    ensures StepsTo(WorldWith(TheRecord(true, limits, map[])), LateClaim(lag, limits)[2],
                    WorldWith(TheRecord(true, limits, Claims(lag, limits))), lag, limits)
  {
    ReserveClaims(lag, limits);
  }

  lemma RunOfThree(a: Step, b: Step, c: Step, w1: World, w2: World, w3: World, lag: nat, limits: Limits)
    requires StepsTo(Start, a, w1, lag, limits) && StepsTo(w1, b, w2, lag, limits) && StepsTo(w2, c, w3, lag, limits)
    ensures Run([Start, w1, w2, w3], [a, b, c], lag, limits)
  {
  }

  lemma ClaimKeepsRecord(lag: nat, limits: Limits)
    requires Roomy(limits)
    ensures var r := TheRecord(true, limits, Claims(lag, limits));
      7 in Sweep(map[7 := r], LastMoment(AtZero, lag, limits) - 2)
  {
    var r := TheRecord(true, limits, Claims(lag, limits));
    assert 5 in LiveClaims(r, LastMoment(AtZero, lag, limits) - 2).claims;
  }

  /**
    The lag is not an artefact: a reservation checks the expiry and dates its
    claim by two clock readings. For every lag and all limits a run from the
    empty store keeps its record until two milliseconds before its last moment,
    the last instant that the bound leaves open.
   */
  lemma LagIsTight(lag: nat, limits: Limits) returns (ws: seq<World>)
    requires Roomy(limits)
    ensures Run(ws, LateClaim(lag, limits), lag, limits)
    ensures 7 in ws[3].born && ws[3].born[7] == AtZero
    ensures 7 in Sweep(ws[3].records, LastMoment(AtZero, lag, limits) - 2)
  {
    ws := [Start, WorldWith(TheRecord(false, limits, map[])), WorldWith(TheRecord(true, limits, map[])),
           WorldWith(TheRecord(true, limits, Claims(lag, limits)))];
    UploadStep(lag, limits);
    SendStep(lag, limits);
    ReserveStep(lag, limits);
    var steps := LateClaim(lag, limits);
    RunOfThree(steps[0], steps[1], steps[2], ws[1], ws[2], ws[3], lag, limits);
    assert steps == [steps[0], steps[1], steps[2]];
    ClaimKeepsRecord(lag, limits);
  }
}
