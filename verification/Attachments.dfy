/**
  The life of an encrypted attachment on values: staged, published, claimed,
  completed, expired. The record table is the whole state here; the binding
  index and the usage counters that the relay keeps beside it are the business
  of `AttachmentStore`.
 */
module Attachments {
  import opened Basics
  import opened Totals

  type Code = nat
  type Id = nat

  const CLAIM_TTL_MS: nat := 10 * 60 * 1000
  const STAGING_TTL_MS: nat := 10 * 60 * 1000
  const MAX_REQUESTED_TTL_SEC: nat := 86_400

  datatype BindingKey = BindingKey(owner: Code, chat: Name, message: Name)

  datatype Claim = Claim(recipient: Code, createdAt: nat)

  datatype Record = Record(key: BindingKey, size: nat, published: bool, stagedUntil: Option<nat>,
                           oneTime: bool, deleteAfter: bool, expires: nat,
                           eligible: set<Code>, claims: map<Id, Claim>, completed: set<Code>)

  type Records = map<Id, Record>

  datatype Limits = Limits(ram: nat, account: nat, records: nat, accountRecords: nat, maxLifetimeSec: nat)

  predicate Destructive(r: Record) {
    r.oneTime || r.deleteAfter
  }

  // ---- Lifetimes ----------------------------------------------------------

  /** The expiry rules of a room that concern one media type; a direct chat has none. */
  datatype Policy = Policy(textEnforced: bool, textTtl: nat, mediaEnforced: bool, mediaTtl: nat)

  /** `enforced_attachment_ttl_sec`: the smaller of the enforced lifetimes, 0 for none. */
  function EnforcedTtl(p: Policy): nat {
    var text := if p.textEnforced then p.textTtl else 0;
    var media := if p.mediaEnforced then p.mediaTtl else 0;
    if text == 0 then media else if media == 0 then text else Min(text, media)
  }

  /** `effective_attachment_ttl_sec` */
  function EffectiveTtl(requested: nat, policy: Option<Policy>, maxLifetime: nat): nat {
    var wanted := Min(requested, MAX_REQUESTED_TTL_SEC);
    var enforced := if policy.Some? then EnforcedTtl(policy.value) else 0;
    var effective := if wanted == 0 then enforced else if enforced == 0 then wanted else Min(wanted, enforced);
    if effective == 0 then maxLifetime else Min(effective, maxLifetime)
  }

  /**
    No request and no policy extends the relay's lifetime limit, and none
    switches expiry off: the result is the least of the limits that are set.
   */
  lemma EffectiveTtlIsLeast(requested: nat, policy: Option<Policy>, maxLifetime: nat)
    ensures var ttl := EffectiveTtl(requested, policy, maxLifetime);
      var bounds := {maxLifetime}
        + (if requested > 0 then {Min(requested, MAX_REQUESTED_TTL_SEC)} else {})
        + (if policy.Some? && policy.value.textEnforced && policy.value.textTtl > 0 then {policy.value.textTtl} else {})
        + (if policy.Some? && policy.value.mediaEnforced && policy.value.mediaTtl > 0
           then {policy.value.mediaTtl} else {});
      ttl in bounds && forall b :: b in bounds ==> ttl <= b
  {
  }

  // ---- Expiry -------------------------------------------------------------

  predicate ClaimLive(c: Claim, now: nat) {
    SatSub(now, c.createdAt) < CLAIM_TTL_MS
  }

  function LiveClaims(r: Record, now: nat): Record {
    r.(claims := map c | c in r.claims && ClaimLive(r.claims[c], now) :: r.claims[c])
  }

  /** Whether a sweep keeps the record. */
  predicate Kept(r: Record, now: nat) {
    if r.published then now < r.expires || LiveClaims(r, now).claims != map[]
    else r.stagedUntil.Some? && now < r.stagedUntil.value
  }

  /** `prune_expired_attachments_locked` */
  function Sweep(rs: Records, now: nat): Records {
    map id | id in rs && Kept(rs[id], now) :: LiveClaims(rs[id], now)
  }

  // ---- Upload -------------------------------------------------------------

  datatype Upload = Upload(key: BindingKey, size: nat, requestedTtl: nat, policy: Option<Policy>,
                           oneTime: bool, deleteAfter: bool, eligible: set<Code>)

  /** The clock readings of one upload: for its expiry, for its staging deadline, for its sweep. */
  datatype UploadReadings = UploadReadings(expiry: nat, staging: nat, sweep: nat)

  function NewRecord(u: Upload, t: UploadReadings, limits: Limits): Record {
    var ttl := EffectiveTtl(u.requestedTtl, u.policy, limits.maxLifetimeSec);
    var expires := SatAdd(t.expiry, Min(ttl * 1000, U64_MAX));
    Record(u.key, u.size, false, Some(Min(SatAdd(t.staging, STAGING_TTL_MS), expires)),
           u.oneTime, u.deleteAfter, expires, u.eligible, map[], {})
  }

  function Owned(owner: Code): Record -> nat {
    (r: Record) => if r.key.owner == owner then r.size else 0
  }

  function Counted(owner: Code): Record -> nat {
    (r: Record) => if r.key.owner == owner then 1 else 0
  }

  function Size(): Record -> nat {
    (r: Record) => r.size
  }

  ghost function OwnerBytes(rs: Records, owner: Code): nat {
    Total(rs, Owned(owner))
  }

  ghost predicate HasKey(rs: Records, key: BindingKey) {
    exists id :: id in rs && rs[id].key == key
  }

  ghost function IdOf(rs: Records, key: BindingKey): (id: Id)
    requires HasKey(rs, key)
    ensures id in rs && rs[id].key == key
  {
    var id :| id in rs && rs[id].key == key; id
  }

  ghost predicate HasCapacity(rs: Records, u: Upload, limits: Limits) {
    && Total(rs, Size()) + u.size <= limits.ram
    && OwnerBytes(rs, u.key.owner) + u.size <= limits.account
    && |rs| < limits.records
    && Total(rs, Counted(u.key.owner)) < limits.accountRecords
  }

  /** The checks of `commit_upload` on swept tables. */
  ghost predicate Accepts(rs: Records, u: Upload, limits: Limits) {
    && ((u.oneTime || u.deleteAfter) ==> u.eligible != {})
    && HasCapacity(rs, u, limits)
    && !HasKey(rs, u.key)
  }

  /** A destructive upload without recipients is refused before the sweep. */
  ghost function Uploaded(rs: Records, u: Upload, id: Id, t: UploadReadings, limits: Limits): Records {
    if (u.oneTime || u.deleteAfter) && u.eligible == {} then rs
    else
      var swept := Sweep(rs, t.sweep);
      if Accepts(swept, u, limits) then swept[id := NewRecord(u, t, limits)] else swept
  }

  // ---- Lookup, rebind, publish, rollback ----------------------------------

  datatype Staging = Nothing | Duplicate | Staged(id: Id)

  /** What `staged_attachment_for_message` finds for a bound record. */
  function StagingOf(r: Record, id: Id, now: nat): Staging {
    if r.published then
      if now >= r.expires && LiveClaims(r, now).claims == map[] then Nothing else Duplicate
    else if r.stagedUntil.None? || now >= r.stagedUntil.value || now >= r.expires then Nothing
    else Staged(id)
  }

  ghost function LookedUp(rs: Records, key: BindingKey, now: nat): (Records, Staging) {
    if !HasKey(rs, key) then (rs, Nothing)
    else
      var id := IdOf(rs, key);
      var found := StagingOf(rs[id], id, now);
      (if found == Nothing then rs - {id} else rs[id := LiveClaims(rs[id], now)], found)
  }

  predicate CanPublish(r: Record, now: nat) {
    r.published || (r.stagedUntil.Some? && now < r.stagedUntil.value && now < r.expires)
  }

  /** `publish_staged_attachment_checked` for the id that the index holds. */
  function Published(rs: Records, id: Id, now: nat): Records
    requires id in rs
  {
    var r := rs[id];
    if r.published then rs
    else if CanPublish(r, now) then rs[id := r.(published := true, stagedUntil := None)]
    else rs - {id}
  }

  predicate CanRebind(r: Record, recipients: set<Code>) {
    !r.published && (Destructive(r) ==> recipients != {})
  }

  function Rebound(r: Record, recipients: set<Code>): Record {
    if Destructive(r) then r.(eligible := recipients) else r
  }

  /** `rollback_staged_attachment`: the remembered fields go back into a record that still exists. */
  function RolledBack(rs: Records, id: Id, saved: Record): Records {
    if id in rs && rs[id].key == saved.key
    then rs[id := rs[id].(eligible := saved.eligible, published := saved.published, stagedUntil := saved.stagedUntil)]
    else rs
  }

  /**
    Sending the message that carries an attachment: the staged record is looked
    up, its recipients are replaced by the message's (group messages only), it
    is published, and the rollback runs when the message itself fails.
   */
  datatype Send = Send(key: BindingKey, recipients: Option<set<Code>>, lookupAt: nat, publishAt: nat, committed: bool)

  ghost function Sent(rs: Records, s: Send): Records {
    var (found, staging) := LookedUp(rs, s.key, s.lookupAt);
    if !staging.Staged? then found
    else if s.recipients.None? then (if s.committed then Published(found, staging.id, s.publishAt) else found)
    else GroupSent(found, staging.id, s.recipients.value, s.publishAt, s.committed)
  }

  function GroupSent(rs: Records, id: Id, recipients: set<Code>, now: nat, committed: bool): Records
    requires id in rs
  {
    var saved := rs[id];
    if !CanRebind(saved, recipients) then rs
    else
      var published := Published(rs[id := Rebound(saved, recipients)], id, now);
      if id in published && published[id].published && committed then published
      else RolledBack(published, id, saved)
  }

  // ---- Claims -------------------------------------------------------------

  /** The clock readings of one reservation: its sweep, its checks, the creation of the claim. */
  datatype Readings = Readings(sweep: nat, check: nat, create: nat)

  datatype Reservation = Missing | Busy | Forbidden | Open | Claimed(claim: Id)

  ghost predicate HoldsClaim(r: Record, recipient: Code) {
    exists c :: c in r.claims && r.claims[c].recipient == recipient
  }

  ghost function ClaimOf(r: Record, recipient: Code): (c: Id)
    requires HoldsClaim(r, recipient)
    ensures c in r.claims && r.claims[c].recipient == recipient
  {
    var c :| c in r.claims && r.claims[c].recipient == recipient; c
  }

  /** The record after its stale claims are dropped, where the retryable path drops them. */
  function Refreshed(r: Record, reuse: bool, now: nat): Record {
    if reuse then LiveClaims(r, now) else r
  }

  ghost function ReserveIn(r: Record, requester: Code, allowed: bool, reuse: bool, newClaim: Id,
                           t: Readings): (Record, Reservation) {
    if requester != r.key.owner && (!allowed || requester !in r.eligible) then (r, Forbidden)
    else if !Destructive(r) || requester == r.key.owner then (r, Open)
    else
      var s := Refreshed(r, reuse, t.check);
      if requester in s.completed then (s, Missing)
      else if HoldsClaim(s, requester) then (if reuse then (s, Claimed(ClaimOf(s, requester))) else (s, Busy))
      else (s.(claims := s.claims[newClaim := Claim(requester, t.create)]), Claimed(newClaim))
  }

  /** `reserve_attachment_download_inner`; `allowed` is the platform policy's answer. */
  ghost function Reserved(rs: Records, id: Id, requester: Code, allowed: bool, reuse: bool, newClaim: Id, t: Readings)
    : (Records, Reservation)
  {
    var swept := Sweep(rs, t.sweep);
    if id !in swept || !swept[id].published then (swept, Missing)
    else if t.check >= swept[id].expires then
      (if swept[id].claims != map[] then (swept, Busy) else (swept - {id}, Missing))
    else
      var (r, outcome) := ReserveIn(swept[id], requester, allowed, reuse, newClaim, t);
      (swept[id := r], outcome)
  }

  predicate HasClaim(rs: Records, id: Id, claim: Id) {
    id in rs && claim in rs[id].claims
  }

  /** The claim is the requester's own and still counts. */
  predicate Completes(rs: Records, id: Id, requester: Code, claim: Id, now: nat) {
    && HasClaim(rs, id, claim)
    && rs[id].claims[claim].recipient == requester
    && ClaimLive(rs[id].claims[claim], now)
  }

  /** `complete_attachment_download_claim` */
  function Completed(rs: Records, id: Id, requester: Code, claim: Id, now: nat): Records {
    if !HasClaim(rs, id, claim) || rs[id].claims[claim].recipient != requester then rs
    else
      var r := rs[id].(claims := rs[id].claims - {claim});
      if !Completes(rs, id, requester, claim, now) then rs[id := r]
      else
        var s := r.(completed := r.completed + {requester});
        if s.eligible <= s.completed then rs - {id} else rs[id := s]
  }

  /** `release_attachment_download_claim` */
  function ClaimReleased(rs: Records, id: Id, requester: Code, claim: Id): Records {
    if !HasClaim(rs, id, claim) || rs[id].claims[claim].recipient != requester then rs
    else rs[id := rs[id].(claims := rs[id].claims - {claim})]
  }

  function WithoutRecipient(r: Record, code: Code): Record {
    r.(eligible := r.eligible - {code}, completed := r.completed - {code},
       claims := map c | c in r.claims && r.claims[c].recipient != code :: r.claims[c])
  }

  /** `revoke_mls_attachment_access` */
  function Revoked(rs: Records, chat: Name, code: Code): Records {
    map id | id in rs :: if rs[id].key.chat == chat then WithoutRecipient(rs[id], code) else rs[id]
  }

  /** `delete_owned_attachment` */
  function Deleted(rs: Records, id: Id, owner: Code): Records {
    if id in rs && rs[id].key.owner == owner then rs - {id} else rs
  }

  /** `remove_chat_attachments` */
  function ChatRemoved(rs: Records, chat: Name): Records {
    map id | id in rs && rs[id].key.chat != chat :: rs[id]
  }
}
