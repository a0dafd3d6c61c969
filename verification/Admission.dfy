/**
  Direct-message admission on values: prekey leases, the replay table, the
  identity state of an account, and the operations that move all of them
  together. Every operation of the relay that holds `conversation_ops` is one
  step here.
 */
module Admission {
  import opened Basics
  import opened PendingQueues
  import RevisionWindow

  type CodeId = nat

  const REPLAY_WINDOW_MS: nat := 24 * 60 * 60 * 1000
  const MAX_REPLAY_IDS: nat := 50_000
  const MAX_REPLAY_IDS_PER_SENDER: nat := 2_048
  const PREKEY_LEASE_TTL_MS: nat := 30_000
  const PREKEY_POOL_SIZE: nat := 16
  const MAX_PREKEY_LEASES: nat := 4_096
  const MAX_PREKEY_LEASES_PER_RECIPIENT: nat := PREKEY_POOL_SIZE
  const MAX_TRANSIENT_FANOUT_BYTES: nat := 64 * 1024 * 1024

  /** A public identity bundle: long-term fingerprint, one-time prekey commitments, fallback key. */
  datatype Identity = Identity(fingerprint: nat, pool: seq<Name>, fallback: nat)

  /** Canonical bundles carry sixteen distinct, non-empty prekey commitments. */
  predicate Canonical(id: Identity) {
    |id.pool| == PREKEY_POOL_SIZE && Distinct(id.pool) && "" !in id.pool
  }

  datatype Account = Account(username: Name, identity: Identity, envelope: nat, prekeyId: Name,
                             window: RevisionWindow.Window)

  datatype LeaseKey = LeaseKey(code: CodeId, prekey: Name)
  datatype Lease = Lease(chat: Name, message: Name, sender: Name, recipient: Name, createdAt: nat)
  datatype ReplayKey = ReplayKey(chat: Name, sender: Name, message: Name)

  type Leases = map<LeaseKey, Lease>
  type Accounts = map<CodeId, Account>
  type ReplayIds = map<ReplayKey, nat>

  datatype State = State(books: Books, leases: Leases, replayIds: ReplayIds, accounts: Accounts)

  const Empty := State(Books(map[], 0), map[], map[], map[])

  // ---- Leases -------------------------------------------------------------

  predicate LeaseFor(lease: Lease, chat: Name, message: Name, sender: Name, recipient: Name) {
    lease.chat == chat && lease.message == message && lease.sender == sender && lease.recipient == recipient
  }

  /** The frame carries the lease's chat, message, sender and prekey. */
  predicate Carries(f: Frame, lk: LeaseKey, lease: Lease) {
    f.isPrekey && f.chat == lease.chat && f.message == lease.message && f.sender == lease.sender
    && f.prekeyId == lk.prekey
  }

  /** `pending_contains_leased_frame` */
  predicate InUse(pending: Pending, lk: LeaseKey, lease: Lease) {
    exists k, i :: k in pending && 0 <= i < |pending[k]|
                && k.recipient == lease.recipient && Carries(pending[k][i].frame, lk, lease)
  }

  /** An expiring frame takes its lease along, whoever the recipient is. */
  predicate Released(pending: Pending, now: nat, ttl: nat, lk: LeaseKey, lease: Lease) {
    exists k, i :: k in pending && 0 <= i < |pending[k]| && Expired(pending[k][i], now, ttl)
                && IsPrekeyFrame(pending[k][i].frame) && Carries(pending[k][i].frame, lk, lease)
  }

  predicate Fresh(lease: Lease, now: nat) {
    SatSub(now, lease.createdAt) < PREKEY_LEASE_TTL_MS
  }

  /** `prune_prekey_leases` */
  function PrunedLeases(leases: Leases, pending: Pending, now: nat): Leases {
    map lk | lk in leases && (Fresh(leases[lk], now) || InUse(pending, lk, leases[lk])) :: leases[lk]
  }

  /** `prune_pending_queues_locked` */
  ghost function Prune(s: State, now: nat, ttl: nat): State {
    var pending := s.books.pending;
    var live := PrunedQueues(pending, now, ttl);
    var kept := map lk | lk in s.leases && !Released(pending, now, ttl, lk, s.leases[lk]) :: s.leases[lk];
    s.(books := Books(live, BytesOf(live)), leases := PrunedLeases(kept, live, now))
  }

  // ---- Accounts and identity state ----------------------------------------

  predicate UniqueNames(accounts: Accounts) {
    forall c, d :: c in accounts && d in accounts && accounts[c].username == accounts[d].username ==> c == d
  }

  predicate IsCodeOf(accounts: Accounts, code: CodeId, name: Name) {
    code in accounts && accounts[code].username == name
  }

  /** A signed identity state as a client presents it. */
  datatype Update = Update(revision: nat, identity: Identity, envelope: nat, prekeyId: Name,
                           envelopeOk: bool, signatureOk: bool)

  /** `validate_prekey_pool_transition` on canonical pools. */
  predicate PoolTransition(previous: seq<Name>, next: seq<Name>, consumed: Option<Name>) {
    match consumed
    case None => previous == next
    case Some(used) =>
      var removed := Without(previous, next);
      var added := Without(next, previous);
      removed == [used] && |added| == 1 && used !in next
  }

  /** The elements of s that do not occur in t, in order. */
  function Without(s: seq<Name>, t: seq<Name>): (r: seq<Name>)
    ensures forall x :: x in r <==> x in s && x !in t
  {
    if s == [] then []
    else if s[0] in t then Without(s[1..], t)
    else [s[0]] + Without(s[1..], t)
  }

  /** `apply_identity_state_locked_with_consumed`; `None` stands for the rejection. */
  function Applied(a: Account, u: Update, allowReuse: bool, consumed: Option<Name>): Option<Account> {
    if !u.envelopeOk || !Canonical(u.identity) || u.identity.pool[0] != u.prekeyId then None
    else if a.identity.fingerprint != u.identity.fingerprint then None
    else if !Canonical(a.identity) || !PoolTransition(a.identity.pool, u.identity.pool, consumed) then None
    else if !u.signatureOk then None
    else if u.revision > a.window.revision then
      match RevisionWindow.Offer(a.window, u.revision, allowReuse)
      case Rejected => None
      case Accepted(w) =>
        Some(a.(identity := u.identity, envelope := u.envelope, prekeyId := u.prekeyId, window := w))
    else if a.identity != u.identity || a.prekeyId != u.prekeyId then None
    else
      match RevisionWindow.Offer(a.window, u.revision, allowReuse)
      case Rejected => None
      case Accepted(w) => Some(a.(window := w))
  }

  /** `update_identity_state` */
  predicate Updatable(s: State, code: CodeId, u: Update) {
    code in s.accounts && Applied(s.accounts[code], u, true, None).Some?
  }

  function Updated(s: State, code: CodeId, u: Update): State {
    if !Updatable(s, code, u) then s
    else s.(accounts := s.accounts[code := Applied(s.accounts[code], u, true, None).value])
  }

  // ---- The replay table ---------------------------------------------------

  function LiveReplayIds(ids: ReplayIds, now: nat): ReplayIds {
    map k | k in ids && SatSub(now, ids[k]) < REPLAY_WINDOW_MS :: ids[k]
  }

  function SenderIds(ids: ReplayIds, sender: Name): set<ReplayKey> {
    set k | k in ids && k.sender == sender
  }

  /** `register_message_id` refuses a live id, a full sender and a full table. */
  predicate CanRegister(ids: ReplayIds, key: ReplayKey, now: nat) {
    var live := LiveReplayIds(ids, now);
    && key !in live
    && |SenderIds(live, key.sender)| < MAX_REPLAY_IDS_PER_SENDER
    && |live| < MAX_REPLAY_IDS
  }

  function ReplayKeyOf(f: Frame): ReplayKey {
    ReplayKey(f.chat, f.sender, f.message)
  }

  // ---- Routing ------------------------------------------------------------

  /** One recipient's share of a message: the frame prepared for that recipient. */
  datatype Delivery = Delivery(recipient: Name, frame: Frame)

  /** A message whose envelopes, signatures and frames have been validated and prepared. */
  datatype Message = Message(senderCode: CodeId, chat: Name, message: Name, sender: Name,
                             deliveries: seq<Delivery>, update: Update)

  /** The clock readings that one admission takes, in order. */
  datatype Clock = Clock(sweep: nat, admit: nat, preflight: nat, commit: nat, register: nat)

  predicate Monotone(c: Clock) {
    c.sweep <= c.admit <= c.preflight <= c.commit <= c.register
  }

  function EntriesOf(m: Message): (entries: seq<Entry>)
    ensures |entries| == |m.deliveries|
  {
    seq(|m.deliveries|, i requires 0 <= i < |m.deliveries| =>
      Entry(PendingKey(m.deliveries[i].frame.chat, m.deliveries[i].recipient), m.deliveries[i].frame))
  }

  /** What preparation guarantees: frames of this message, one per distinct recipient. */
  predicate Prepared(m: Message) {
    && Distinct(KeysOf(EntriesOf(m)))
    && (forall i :: 0 <= i < |m.deliveries| ==>
          var f := m.deliveries[i].frame;
          && f.chat == m.chat && f.message == m.message && f.sender == m.sender
          && (f.isPrekey <==> f.prekeyId != ""))
  }

  /** The size of the first n prepared frames and their recipient names. */
  function FanoutBytes(deliveries: seq<Delivery>, n: nat): nat
    requires n <= |deliveries|
  {
    if n == 0 then 0
    else FanoutBytes(deliveries, n - 1) + deliveries[n - 1].frame.bytes + |deliveries[n - 1].recipient|
  }

  predicate FanoutFits(deliveries: seq<Delivery>) {
    && FanoutBytes(deliveries, |deliveries|) <= MAX_TRANSIENT_FANOUT_BYTES
    && forall i :: 0 <= i < |deliveries| ==> deliveries[i].frame.bytes <= MAX_FRAME_BYTES
  }

  /** `admit_prekey_leases` for one recipient. */
  predicate LeaseHeld(leases: Leases, accounts: Accounts, d: Delivery) {
    exists code :: code in accounts && IsCodeOf(accounts, code, d.recipient)
      && var lk := LeaseKey(code, d.frame.prekeyId);
         && d.frame.prekeyId in accounts[code].identity.pool
         && lk in leases
         && LeaseFor(leases[lk], d.frame.chat, d.frame.message, d.frame.sender, d.recipient)
  }

  predicate LeasesHeld(leases: Leases, accounts: Accounts, deliveries: seq<Delivery>) {
    forall i :: 0 <= i < |deliveries| && deliveries[i].frame.isPrekey ==> LeaseHeld(leases, accounts, deliveries[i])
  }

  /** Where an admission stops. */
  datatype Outcome =
    | NoLease | FanoutFull | QueueFull | ReplayRejected | IdentityRejected | Admitted

  /** The outcome once the dry run has passed: commit, register, apply. */
  function ConcludedOutcome(s: State, m: Message, c: Clock): Outcome {
    if !CanRegister(s.replayIds, ReplayKey(m.chat, m.sender, m.message), c.register) then ReplayRejected
    else if m.senderCode !in s.accounts || Applied(s.accounts[m.senderCode], m.update, false, None).None?
    then IdentityRejected
    else Admitted
  }

  function Concluded(s: State, m: Message, c: Clock): State {
    var live := LiveReplayIds(s.replayIds, c.register);
    if ConcludedOutcome(s, m, c) != Admitted then s.(replayIds := live)
    else
      var account := Applied(s.accounts[m.senderCode], m.update, false, None).value;
      s.(books := PushAll(s.books, EntriesOf(m), c.commit),
         replayIds := live[ReplayKey(m.chat, m.sender, m.message) := c.register],
         accounts := s.accounts[m.senderCode := account])
  }

  /** The tables on which `admit_prekey_leases` checks: swept, then cleared of stale leases at a second reading. */
  ghost function Admitting(s: State, c: Clock, ttl: nat): State {
    var s1 := Prune(s, c.sweep, ttl);
    s1.(leases := PrunedLeases(s1.leases, s1.books.pending, c.admit))
  }

  /** The tables an admission works on once the dry run has swept again. */
  ghost function Ready(s: State, c: Clock, ttl: nat): State {
    Prune(Admitting(s, c, ttl), c.preflight, ttl)
  }

  /** `route_encrypted_message_with_directory` from the lease check on. */
  ghost function RouteOutcome(s: State, m: Message, c: Clock, ttl: nat): Outcome {
    var s1, s2 := Admitting(s, c, ttl), Ready(s, c, ttl);
    if !LeasesHeld(s1.leases, s1.accounts, m.deliveries) then NoLease
    else if !FanoutFits(m.deliveries) then FanoutFull
    else if !FramesValid(s2.books.pending) || !Admissible(s2.books, EntriesOf(m), c.commit) then QueueFull
    else ConcludedOutcome(s2, m, c)
  }

  /** The tables a refused admission leaves behind: what expired is gone, nothing else changed. */
  ghost function Refused(s: State, c: Clock, ttl: nat, o: Outcome): State {
    match o
    case NoLease | FanoutFull => Admitting(s, c, ttl)
    case QueueFull => Ready(s, c, ttl)
    case _ =>
      var s2 := Ready(s, c, ttl);
      s2.(replayIds := LiveReplayIds(s2.replayIds, c.register))
  }

  ghost function Routed(s: State, m: Message, c: Clock, ttl: nat): State {
    var o := RouteOutcome(s, m, c, ttl);
    if o != Admitted then Refused(s, c, ttl, o) else Concluded(Ready(s, c, ttl), m, c)
  }

  // ---- Leasing, releasing, acknowledging ----------------------------------

  /** A request about one (chat, message, sender, recipient). */
  datatype Request = Request(chat: Name, message: Name, sender: Name, recipient: Name)

  function OwnLeases(leases: Leases, code: CodeId, r: Request): set<LeaseKey> {
    set lk | lk in leases && lk.code == code && LeaseFor(leases[lk], r.chat, r.message, r.sender, r.recipient)
  }

  function LeasesOf(leases: Leases, code: CodeId): set<LeaseKey> {
    set lk | lk in leases && lk.code == code
  }

  /** The first commitment of the pool that nobody has leased. */
  function FirstUnleased(pool: seq<Name>, leases: Leases, code: CodeId): (id: Option<Name>)
    ensures id.Some? ==> id.value in pool && LeaseKey(code, id.value) !in leases
    ensures id.None? ==> forall p :: p in pool ==> LeaseKey(code, p) in leases
  {
    if pool == [] then None
    else if LeaseKey(code, pool[0]) !in leases then Some(pool[0])
    else FirstUnleased(pool[1..], leases, code)
  }

  ghost predicate Known(accounts: Accounts, name: Name) {
    exists code :: IsCodeOf(accounts, code, name)
  }

  ghost function CodeOf(accounts: Accounts, name: Name): (code: CodeId)
    requires Known(accounts, name)
    ensures IsCodeOf(accounts, code, name)
  {
    var code :| IsCodeOf(accounts, code, name); code
  }

  /** The prekey an authorised lease request gets from pruned tables; `None` if it is refused. */
  ghost function LeaseChoice(s: State, code: CodeId, r: Request): Option<Name>
    requires code in s.accounts
  {
    var own := OwnLeases(s.leases, code, r);
    if |own| > 1 then None
    else if own != {} then var lk :| lk in own; Some(lk.prekey)
    else if |s.leases| >= MAX_PREKEY_LEASES || |LeasesOf(s.leases, code)| >= MAX_PREKEY_LEASES_PER_RECIPIENT then None
    else FirstUnleased(s.accounts[code].identity.pool, s.leases, code)
  }

  /** `lease_prekey`; the sweep and the lease itself read the clock separately. */
  ghost function Leased(s: State, r: Request, sweep: nat, now: nat, ttl: nat): (State, Option<Name>) {
    var s1 := Prune(s, sweep, ttl);
    if !Known(s1.accounts, r.recipient) then (s1, None)
    else
      var code := CodeOf(s1.accounts, r.recipient);
      if !Canonical(s1.accounts[code].identity) then (s1, None)
      else
        var s2 := s1.(leases := PrunedLeases(s1.leases, s1.books.pending, now));
        match LeaseChoice(s2, code, r)
        case None => (s2, None)
        case Some(id) =>
          var lk := LeaseKey(code, id);
          if lk in s2.leases then (s2, Some(id))
          else (s2.(leases := s2.leases[lk := Lease(r.chat, r.message, r.sender, r.recipient, now)]), Some(id))
  }

  /** `release_unused_prekey_lease` */
  ghost predicate CanRelease(s: State, r: Request, id: Name) {
    Known(s.accounts, r.recipient)
    && var lk := LeaseKey(CodeOf(s.accounts, r.recipient), id);
       && lk in s.leases
       && LeaseFor(s.leases[lk], r.chat, r.message, r.sender, r.recipient)
       && !InUse(s.books.pending, lk, s.leases[lk])
  }

  ghost function LeaseReleased(s: State, r: Request, id: Name): State {
    if CanRelease(s, r, id) then s.(leases := s.leases - {LeaseKey(CodeOf(s.accounts, r.recipient), id)}) else s
  }

  /** An acknowledgement whose signature and conversation have been checked. */
  datatype Ack = Ack(code: CodeId, username: Name, chat: Name, message: Name, sender: Name,
                     used: Name, update: Update)

  /** `pending_frame_matches_ack` */
  predicate MatchesAck(f: Frame, a: Ack) {
    f.chat == a.chat && f.message == a.message && f.sender == a.sender
    && if a.used == "" then !f.isPrekey && f.prekeyId == "" else f.isPrekey && f.prekeyId == a.used
  }

  /** The frame an acknowledgement names, if the queue holds exactly one such frame. */
  predicate OnlyMatch(q: seq<PendingFrame>, a: Ack, i: nat) {
    i < |q| && MatchesAck(q[i].frame, a)
    && forall j :: 0 <= j < |q| && MatchesAck(q[j].frame, a) ==> j == i
  }

  function AckKey(a: Ack): PendingKey {
    PendingKey(a.chat, a.username)
  }

  function Consumed(a: Ack): Option<Name> {
    if a.used == "" then None else Some(a.used)
  }

  /** `leases_for_recipient_missing_from_pool`, negated. */
  predicate OtherLeasesKept(leases: Leases, code: CodeId, pool: seq<Name>, consumed: Option<Name>) {
    forall lk :: lk in leases && lk.code == code && consumed != Some(lk.prekey) ==> lk.prekey in pool
  }

  /** Every precondition `acknowledge_message` checks on pruned tables before it changes anything. */
  predicate AckAccepted(s: State, a: Ack, i: nat) {
    && OnlyMatch(QueueOf(s.books.pending, AckKey(a)), a, i)
    && QueueOf(s.books.pending, AckKey(a))[i].frame.bytes <= s.books.bytes
    && (a.used != "" ==>
          var lk := LeaseKey(a.code, a.used);
          lk in s.leases && LeaseFor(s.leases[lk], a.chat, a.message, a.sender, a.username))
    && Canonical(a.update.identity)
    && OtherLeasesKept(s.leases, a.code, a.update.identity.pool, Consumed(a))
    && a.code in s.accounts
    && Applied(s.accounts[a.code], a.update, true, Consumed(a)).Some?
  }

  /** The tables after an accepted acknowledgement. */
  function Acked(s: State, a: Ack, i: nat): State
    requires AckAccepted(s, a, i)
  {
    var k := AckKey(a);
    var q := QueueOf(s.books.pending, k);
    var rest := RemoveAt(q, i);
    var books := Books(if rest == [] then s.books.pending - {k} else s.books.pending[k := rest],
                       s.books.bytes - q[i].frame.bytes);
    State(books,
          if a.used == "" then s.leases else s.leases - {LeaseKey(a.code, a.used)},
          s.replayIds,
          s.accounts[a.code := Applied(s.accounts[a.code], a.update, true, Consumed(a)).value])
  }

  ghost function Acknowledged(s: State, a: Ack, now: nat, ttl: nat): State {
    var s1 := Prune(s, now, ttl);
    if exists i :: AckAccepted(s1, a, i) then var i :| AckAccepted(s1, a, i); Acked(s1, a, i) else s1
  }
}
