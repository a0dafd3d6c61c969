/**
  Attachment records as independent automata: what a step of the store makes of
  a record depends on that record alone, whatever else the tables hold, and a
  new record appears only by an upload that every limit admits.
 */
module RecordFates {
  import opened Basics
  import opened Totals
  import opened Attachments
  import opened AttachmentLifecycle

  // ---- One record ---------------------------------------------------------

  function Alive(claims: map<Id, Claim>, now: nat): map<Id, Claim> {
    map c | c in claims && now < claims[c].createdAt + CLAIM_TTL_MS :: claims[c]
  }

  /** Before its time is up: the expiry of a published record, the staging deadline of another. */
  predicate InTime(r: Record, now: nat) {
    if r.published then now < r.expires else r.stagedUntil.Some? && now < r.stagedUntil.value
  }

  /** What a sweep makes of a record; live claims keep a published one beyond its expiry. */
  function Aged(r: Record, now: nat): Option<Record> {
    var claims := Alive(r.claims, now);
    if InTime(r, now) || (r.published && claims != map[]) then Some(r.(claims := claims)) else None
  }

  predicate Publishable(r: Record, now: nat) {
    r.stagedUntil.Some? && now < r.stagedUntil.value && now < r.expires
  }

  predicate UsedUpByReading(r: Record) {
    r.oneTime || r.deleteAfter
  }

  /** What the message with its key makes of a record. */
  function Carried(r: Record, s: Send): Option<Record> {
    var looked := r.(claims := Alive(r.claims, s.lookupAt));
    if r.published then
      if s.lookupAt < r.expires || looked.claims != map[] then Some(looked) else None
    else if !Publishable(r, s.lookupAt) then None
    else
      match s.recipients
      case None =>
        if !s.committed then Some(looked)
        else if Publishable(r, s.publishAt) then Some(looked.(published := true, stagedUntil := None))
        else None
      case Some(recipients) =>
        if UsedUpByReading(r) && recipients == {} then Some(looked)
        else if !Publishable(r, s.publishAt) then None
        else if !s.committed then Some(looked)
        else
          Some(looked.(published := true, stagedUntil := None,
                       eligible := if UsedUpByReading(r) then recipients else r.eligible))
  }

  /** What a reservation makes of its record, once swept. */
  ghost function Requested(r: Record, step: Step): Option<Record>
    requires step.Reserve?
  {
    var who, t := step.requester, step.readings;
    if !r.published then Some(r)
    else if r.expires <= t.check then (if r.claims == map[] then None else Some(r))
    else if who == r.key.owner || who !in r.eligible || !step.allowed || !UsedUpByReading(r) then Some(r)
    else
      var claims := if step.reuse then Alive(r.claims, t.check) else r.claims;
      if who in r.completed || (exists c :: c in claims && claims[c].recipient == who) then Some(r.(claims := claims))
      else Some(r.(claims := claims[step.newClaim := Claim(who, t.create)]))
  }

  predicate Holds(r: Record, claim: Id, who: Code) {
    claim in r.claims && r.claims[claim].recipient == who
  }

  /** What a completion makes of its record: late ones lose the claim, the last one takes the record along. */
  function Delivered(r: Record, who: Code, claim: Id, now: nat): Option<Record> {
    if !Holds(r, claim, who) then Some(r)
    else
      var rest := r.(claims := map c | c in r.claims && c != claim :: r.claims[c]);
      if r.claims[claim].createdAt + CLAIM_TTL_MS <= now then Some(rest)
      else if forall code :: code in r.eligible ==> code in r.completed || code == who then None
      else Some(rest.(completed := r.completed + {who}))
  }

  /** What a step makes of the record under this id; `None` if it is gone. */
  ghost function Fate(r: Record, id: Id, step: Step): Option<Record> {
    match step
    case SweepAll(now) => Aged(r, now)
    case UploadBlob(u, _, t) => if (u.oneTime || u.deleteAfter) && u.eligible == {} then Some(r) else Aged(r, t.sweep)
    case SendMessage(s) => if r.key == s.key then Carried(r, s) else Some(r)
    case Reserve(blob, _, _, _, _, t) =>
      var aged := Aged(r, t.sweep);
      if blob == id && aged.Some? then Requested(aged.value, step) else aged
    case Complete(blob, who, claim, now) => if blob == id then Delivered(r, who, claim, now) else Some(r)
    case Release(blob, who, claim) =>
      if blob == id && Holds(r, claim, who)
      then Some(r.(claims := map c | c in r.claims && c != claim :: r.claims[c])) else Some(r)
    case Revoke(chat, code) =>
      if r.key.chat != chat then Some(r)
      else
        Some(r.(eligible := (set x | x in r.eligible && x != code),
                completed := (set x | x in r.completed && x != code),
                claims := map c | c in r.claims && r.claims[c].recipient != code :: r.claims[c]))
    case Delete(blob, owner) => if blob == id && r.key.owner == owner then None else Some(r)
    case RemoveChat(chat) => if r.key.chat == chat then None else Some(r)
    case WipeAll => None
  }

  /** The table holds exactly this under the id. */
  ghost predicate HasFate(rs: Records, id: Id, fate: Option<Record>) {
    if fate.None? then id !in rs else id in rs && rs[id] == fate.value
  }

  // ---- Locality -----------------------------------------------------------

  lemma SweepFate(rs: Records, now: nat, id: Id)
    requires id in rs
    ensures HasFate(Sweep(rs, now), id, Aged(rs[id], now))
  {
    assert LiveClaims(rs[id], now).claims == Alive(rs[id].claims, now);
  }

  lemma LookupFate(rs: Records, s: Send, id: Id)
    requires UniqueKeys(rs) && id in rs && rs[id].key == s.key
    ensures HasKey(rs, s.key) && IdOf(rs, s.key) == id
    ensures LiveClaims(rs[id], s.lookupAt).claims == Alive(rs[id].claims, s.lookupAt)
  {
  }

  lemma SendFate(rs: Records, s: Send, id: Id, lag: nat)
    requires AllOk(rs, lag) && UniqueKeys(rs) && id in rs
    ensures HasFate(Sent(rs, s), id, Fate(rs[id], id, SendMessage(s)))
  {
    if rs[id].key == s.key {
      LookupFate(rs, s, id);
      assert RecordOk(rs[id]);
      var (found, staging) := LookedUp(rs, s.key, s.lookupAt);
      if staging.Staged? && s.recipients.Some? {
        GroupSendOutcome(found, id, s.recipients.value, s.publishAt, s.committed);
      }
    } else if HasKey(rs, s.key) {
      OtherSendFate(rs, s, id, lag);
    }
  }

  lemma OtherSendFate(rs: Records, s: Send, id: Id, lag: nat)
    requires AllOk(rs, lag) && UniqueKeys(rs) && id in rs && rs[id].key != s.key && HasKey(rs, s.key)
    ensures id in Sent(rs, s) && Sent(rs, s)[id] == rs[id]
  {
    var other := IdOf(rs, s.key);
    var (found, staging) := LookedUp(rs, s.key, s.lookupAt);
    assert RecordOk(rs[other]);
    if staging.Staged? && s.recipients.Some? {
      GroupSendOutcome(found, other, s.recipients.value, s.publishAt, s.committed);
    }
  }

  lemma ReserveFate(rs: Records, step: Step, limits: Limits, id: Id)
    requires step.Reserve? && id in rs
    ensures HasFate(NextRecords(rs, step, limits), id, Fate(rs[id], id, step))
  {
    var swept := Sweep(rs, step.readings.sweep);
    SweepFate(rs, step.readings.sweep, id);
    if step.blob == id && id in swept {
      assert LiveClaims(swept[id], step.readings.check).claims == Alive(swept[id].claims, step.readings.check);
    }
  }

  lemma CompleteFate(rs: Records, step: Step, limits: Limits, id: Id)
    requires step.Complete? && id in rs
    ensures HasFate(NextRecords(rs, step, limits), id, Fate(rs[id], id, step))
  {
    var r := rs[id];
    if step.blob == id && step.claim in r.claims {
      assert r.claims - {step.claim} == map c | c in r.claims && c != step.claim :: r.claims[c];
    }
  }

  lemma RevokeFate(rs: Records, chat: Name, code: Code, id: Id)
    requires id in rs
    ensures HasFate(Revoked(rs, chat, code), id, Fate(rs[id], id, Revoke(chat, code)))
  {
    var r := rs[id];
    assert r.eligible - {code} == set x | x in r.eligible && x != code;
    assert r.completed - {code} == set x | x in r.completed && x != code;
  }

  lemma ReleaseFate(rs: Records, step: Step, limits: Limits, id: Id)
    requires step.Release? && id in rs
    ensures HasFate(NextRecords(rs, step, limits), id, Fate(rs[id], id, step))
  {
    var r := rs[id];
    if step.blob == id && step.claim in r.claims {
      assert r.claims - {step.claim} == map c | c in r.claims && c != step.claim :: r.claims[c];
    }
  }

  /** Every step makes of every record exactly what it would make of it alone. */
  lemma StepFate(rs: Records, step: Step, lag: nat, limits: Limits, id: Id)
    requires AllOk(rs, lag) && UniqueKeys(rs) && id in rs && (step.UploadBlob? ==> step.id != id)
    ensures HasFate(NextRecords(rs, step, limits), id, Fate(rs[id], id, step))
  {
    match step
    case SweepAll(now) => SweepFate(rs, now, id);
    case UploadBlob(_, _, t) => SweepFate(rs, t.sweep, id);
    case SendMessage(s) => SendFate(rs, s, id, lag);
    case Reserve(_, _, _, _, _, _) => ReserveFate(rs, step, limits, id);
    case Complete(_, _, _, _) => CompleteFate(rs, step, limits, id);
    case Release(_, _, _) => ReleaseFate(rs, step, limits, id);
    case Revoke(chat, code) => RevokeFate(rs, chat, code, id);
    case _ =>
  }

  // ---- New records --------------------------------------------------------

  /** The upload has recipients if it needs them, all four limits hold, and no record that stays has its key. */
  ghost predicate Storable(rs: Records, u: Upload, t: UploadReadings, limits: Limits) {
    var swept := Sweep(rs, t.sweep);
    && (u.oneTime || u.deleteAfter ==> u.eligible != {})
    && Total(swept, Size()) + u.size <= limits.ram
    && Total(swept, Owned(u.key.owner)) + u.size <= limits.account
    && |swept| < limits.records && Total(swept, Counted(u.key.owner)) < limits.accountRecords
    && (forall i :: i in rs && Aged(rs[i], t.sweep).Some? ==> rs[i].key != u.key)
  }

  /** A staged record for the upload, dated by its readings. */
  predicate IsFresh(r: Record, u: Upload, t: UploadReadings, limits: Limits) {
    var ttl := EffectiveTtl(u.requestedTtl, u.policy, limits.maxLifetimeSec);
    && r.key == u.key && r.size == u.size && r.oneTime == u.oneTime && r.deleteAfter == u.deleteAfter
    && r.eligible == u.eligible && r.claims == map[] && r.completed == {} && !r.published
    && (t.expiry + ttl * 1000 <= U64_MAX ==> r.expires == t.expiry + ttl * 1000)
    && (t.expiry + ttl * 1000 > U64_MAX ==> r.expires == U64_MAX)
    && (t.staging + STAGING_TTL_MS <= r.expires ==> r.stagedUntil == Some(t.staging + STAGING_TTL_MS))
    && (t.staging + STAGING_TTL_MS > r.expires ==> r.stagedUntil == Some(r.expires))
  }

  lemma KeyTaken(rs: Records, now: nat, key: BindingKey)
    ensures HasKey(Sweep(rs, now), key) <==> exists i :: i in rs && Aged(rs[i], now).Some? && rs[i].key == key
  {
    forall i | i in rs ensures HasFate(Sweep(rs, now), i, Aged(rs[i], now)) {
      SweepFate(rs, now, i);
    }
    if HasKey(Sweep(rs, now), key) {
      var i :| i in Sweep(rs, now) && Sweep(rs, now)[i].key == key;
      assert i in rs && Aged(rs[i], now).Some? && rs[i].key == key;
    }
    if i :| i in rs && Aged(rs[i], now).Some? && rs[i].key == key {
      assert i in Sweep(rs, now) && Sweep(rs, now)[i].key == key;
    }
  }

  /** An id appears exactly by an upload that can be stored, as a fresh record for it. */
  lemma StepBirth(rs: Records, step: Step, limits: Limits, id: Id)
    requires id !in rs
    ensures var ss := NextRecords(rs, step, limits);
      && (id in ss <==> step.UploadBlob? && step.id == id && Storable(rs, step.upload, step.uploadedAt, limits))
      && (id in ss ==> IsFresh(ss[id], step.upload, step.uploadedAt, limits))
  {
    match step
    case UploadBlob(u, _, t) =>
      KeyTaken(rs, t.sweep, u.key);
      if id == step.id && id in NextRecords(rs, step, limits) { FreshRecord(u, t, limits); }
    case SendMessage(s) =>
      if HasKey(rs, s.key) { assert IdOf(rs, s.key) in rs; }
    case _ =>
  }

  lemma FreshRecord(u: Upload, t: UploadReadings, limits: Limits)
    ensures IsFresh(NewRecord(u, t, limits), u, t, limits)
  {
  }

  // ---- Whole runs ---------------------------------------------------------

  /** In every run each record develops by its own fate alone. */
  lemma RecordsAreIndependent(ws: seq<World>, steps: seq<Step>, i: nat, lag: nat, limits: Limits, id: Id)
    requires Run(ws, steps, lag, limits) && i < |steps| && id in ws[i].records
    ensures HasFate(ws[i + 1].records, id, Fate(ws[i].records[id], id, steps[i]))
  {
    ReachableInvariant(ws, steps, i, lag, limits);
    assert StepsTo(ws[i], steps[i], ws[i + 1], lag, limits);
    StepFate(ws[i].records, steps[i], lag, limits, id);
  }

  /** A completion counts exactly when its claim is the requester's own and alive. */
  lemma CompletionIff(rs: Records, id: Id, who: Code, claim: Id, now: nat)
    ensures Completes(rs, id, who, claim, now) <==>
            id in rs && Holds(rs[id], claim, who) && now < rs[id].claims[claim].createdAt + CLAIM_TTL_MS
  {
  }
}
