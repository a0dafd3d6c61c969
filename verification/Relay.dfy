/**
  The relay's in-memory tables and the operations that update them in place.
  Every method is proved against the transitions of `Admission`.
 */
module Relay {
  import opened Basics
  import opened Totals
  import opened PendingQueues
  import opened Admission
  import opened Agreement

  type Simulated = map<PendingKey, seq<Slot>>

  function SlotsOf(sim: Simulated, key: PendingKey): seq<Slot> {
    if key in sim then sim[key] else []
  }

  /** The dry run stands at the books that the first entries would leave. */
  ghost predicate Mirrors(sim: Simulated, bytes: nat, b: Books) {
    bytes == b.bytes && forall k :: SlotsOf(sim, k) == Shape(QueueOf(b.pending, k))
  }

  lemma MirrorsPush(sim: Simulated, bytes: nat, b: Books, e: Entry, now: nat)
    requires Mirrors(sim, bytes, b)
    ensures var slots := SlotsOf(sim, e.key);
      Mirrors(sim[e.key := Evict(slots, EvictionIndex(slots)) + [Slot(e.frame.bytes, IsPrekeyFrame(e.frame))]],
              SatSub(bytes, EvictedBytes(slots)) + e.frame.bytes, PushOne(b, e, now))
  {
    var q := QueueOf(b.pending, e.key);
    var i := EvictionIndex(Shape(q));
    assert Shape(Evict(q, i) + [PendingFrame(e.frame, now)])
        == Evict(Shape(q), i) + [Slot(e.frame.bytes, IsPrekeyFrame(e.frame))];
    var next := sim[e.key := Evict(Shape(q), i) + [Slot(e.frame.bytes, IsPrekeyFrame(e.frame))]];
    forall k ensures SlotsOf(next, k) == Shape(QueueOf(PushOne(b, e, now).pending, k)) {
      assert SlotsOf(sim, k) == Shape(QueueOf(b.pending, k));
    }
  }

  /** The search for the first frame that may be evicted. */
  method PositionOrdinary(slots: seq<Slot>) returns (index: nat)
    ensures index == FirstOrdinary(slots)
  {
    index := 0;
    while index < |slots| && slots[index].prekey
      invariant index <= |slots|
      invariant FirstOrdinary(slots) == index + FirstOrdinary(slots[index..])
    {
      assert slots[index..][1..] == slots[index + 1..];
      index := index + 1;
    }
  }

  /** One iteration of the dry run. */
  method SimulatePush(sim: Simulated, projected: nat, e: Entry, ghost c: Books, ghost now: nat)
      returns (ok: bool, next: Simulated, bytes: nat, eviction: Option<nat>)
    requires Mirrors(sim, projected, c)
    ensures ok == Fits(c, e, now)
    ensures ok ==> Mirrors(next, bytes, PushOne(c, e, now)) && eviction == PlanFor(c, e).evictionIndex
  {
    var slots := SlotsOf(sim, e.key);
    assert slots == Shape(QueueOf(c.pending, e.key));
    MirrorsPush(sim, projected, c, e, now);
    next, bytes, eviction := sim, projected, None;
    if |slots| >= MAX_PENDING_FRAMES {
      var index := PositionOrdinary(slots);
      if index == |slots| { ok := false; return; }
      eviction := Some(index);
      bytes := SatSub(projected, slots[index].bytes);
    }
    if e.frame.bytes > MAX_FRAME_BYTES || bytes + e.frame.bytes > MAX_PENDING_BYTES { ok := false; return; }
    ok := true;
    bytes := bytes + e.frame.bytes;
    next := sim[e.key := Evict(slots, eviction) + [Slot(e.frame.bytes, IsPrekeyFrame(e.frame))]];
  }

  /** Some prekey frame of the queue that expires by `now` is f. */
  ghost predicate ExpiresIn(queue: seq<PendingFrame>, now: nat, ttl: nat, f: Frame) {
    exists i :: 0 <= i < |queue| && Expired(queue[i], now, ttl) && IsPrekeyFrame(queue[i].frame) && queue[i].frame == f
  }

  /** `expired` lists the expiring prekey frames of every queue but those still to do. */
  ghost predicate Collected(p: Pending, todo: set<PendingKey>, now: nat, ttl: nat, expired: seq<Frame>) {
    forall f :: f in expired <==> exists k :: k in p && k !in todo && ExpiresIn(p[k], now, ttl, f)
  }

  lemma CollectedExtends(p: Pending, todo: set<PendingKey>, now: nat, ttl: nat,
                         expired: seq<Frame>, key: PendingKey, details: seq<Frame>)
    requires Collected(p, todo, now, ttl, expired) && key in todo && key in p
    requires forall f :: f in details <==> ExpiresIn(p[key], now, ttl, f)
    ensures Collected(p, todo - {key}, now, ttl, expired + details)
  {
    forall f
      ensures f in expired + details <==> exists k :: k in p && k !in todo - {key} && ExpiresIn(p[k], now, ttl, f)
    {
      if f in expired {
        var k :| k in p && k !in todo && ExpiresIn(p[k], now, ttl, f);
        assert k !in todo - {key};
      }
      if f in details { assert key !in todo - {key}; }
      if k :| k in p && k !in todo - {key} && ExpiresIn(p[k], now, ttl, f) {
        assert k == key || k !in todo;
      }
    }
  }

  predicate AnyCarries(details: seq<Frame>, lk: LeaseKey, lease: Lease) {
    exists f :: f in details && Carries(f, lk, lease)
  }

  /** All queues but those still to do are drained. */
  ghost predicate PartlyDrained(start: Pending, p: Pending, todo: set<PendingKey>, now: nat, ttl: nat) {
    && todo <= start.Keys == p.Keys
    && forall k :: k in start ==> p[k] == if k in todo then start[k] else Live(start[k], now, ttl)
  }

  lemma FullyDrained(start: Pending, p: Pending, now: nat, ttl: nat)
    requires PartlyDrained(start, p, {}, now, ttl)
    ensures DropEmpty(p) == PrunedQueues(start, now, ttl)
  {
  }

  /** What is left of the leases once those that some of the frames carry are released. */
  function LeasesLeft(leases: Leases, details: seq<Frame>): Leases {
    map lk | lk in leases && !AnyCarries(details, lk, leases[lk]) :: leases[lk]
  }

  lemma ReleasedByDetails(p: Pending, now: nat, ttl: nat, lk: LeaseKey, lease: Lease, expired: seq<Frame>)
    requires Collected(p, {}, now, ttl, expired)
    ensures Released(p, now, ttl, lk, lease) <==> AnyCarries(expired, lk, lease)
  {
    if Released(p, now, ttl, lk, lease) {
      var k, i :| k in p && 0 <= i < |p[k]| && Expired(p[k][i], now, ttl)
               && IsPrekeyFrame(p[k][i].frame) && Carries(p[k][i].frame, lk, lease);
      assert ExpiresIn(p[k], now, ttl, p[k][i].frame);
    }
    if AnyCarries(expired, lk, lease) {
      var f :| f in expired && Carries(f, lk, lease);
      var k :| k in p && ExpiresIn(p[k], now, ttl, f);
      var i :| 0 <= i < |p[k]| && Expired(p[k][i], now, ttl) && IsPrekeyFrame(p[k][i].frame) && p[k][i].frame == f;
    }
  }

  lemma LeasesLeftExtends(leases: Leases, details: seq<Frame>, n: nat)
    requires n < |details|
    ensures var left := LeasesLeft(leases, details[..n]);
      LeasesLeft(leases, details[..n + 1]) == map lk | lk in left && !Carries(details[n], lk, left[lk]) :: left[lk]
  {
    assert details[..n + 1] == details[..n] + [details[n]];
    forall lk | lk in leases
      ensures AnyCarries(details[..n + 1], lk, leases[lk]) <==>
              Carries(details[n], lk, leases[lk]) || AnyCarries(details[..n], lk, leases[lk])
    {
    }
  }

  lemma LeasesLeftIsRelease(p: Pending, leases: Leases, now: nat, ttl: nat, expired: seq<Frame>)
    requires Collected(p, {}, now, ttl, expired)
    ensures LeasesLeft(leases, expired)
         == map lk | lk in leases && !Released(p, now, ttl, lk, leases[lk]) :: leases[lk]
  {
    forall lk | lk in leases
      ensures Released(p, now, ttl, lk, leases[lk]) <==> AnyCarries(expired, lk, leases[lk])
    {
      ReleasedByDetails(p, now, ttl, lk, leases[lk], expired);
    }
  }

  /** Drains one queue; what expired is counted and its prekey frames are remembered. */
  method DrainExpired(queue: seq<PendingFrame>, now: nat, ttl: nat)
      returns (retained: seq<PendingFrame>, freed: nat, expired: seq<Frame>)
    ensures retained == Live(queue, now, ttl)
    ensures freed + Bytes(retained) == Bytes(queue)
    ensures forall f :: f in expired <==> ExpiresIn(queue, now, ttl, f)
  {
    retained, freed, expired := [], 0, [];
    var i := 0;
    while i < |queue|
      invariant 0 <= i <= |queue|
      invariant retained == Live(queue[..i], now, ttl)
      invariant freed + Bytes(retained) == Bytes(queue[..i])
      invariant forall f :: f in expired <==>
        exists j :: 0 <= j < i && Expired(queue[j], now, ttl) && IsPrekeyFrame(queue[j].frame) && queue[j].frame == f
    {
      var pf := queue[i];
      assert queue[..i + 1][..i] == queue[..i];
      if Expired(pf, now, ttl) {
        freed := freed + pf.frame.bytes;
        if IsPrekeyFrame(pf.frame) { expired := expired + [pf.frame]; }
      } else {
        BytesConcat(retained, [pf]);
        retained := retained + [pf];
      }
      i := i + 1;
    }
    assert queue[..|queue|] == queue;
  }

  /** `rposition` on the frames of one queue. */
  method PositionLast(queue: seq<PendingFrame>, f: Frame) returns (index: Option<nat>)
    ensures index == LastMatch(queue, f)
  {
    var i := |queue|;
    assert queue[..|queue|] == queue;
    while i > 0
      invariant 0 <= i <= |queue|
      invariant LastMatch(queue, f) == LastMatch(queue[..i], f)
    {
      i := i - 1;
      if SameMessage(queue[i].frame, f) { return Some(i); }
      assert queue[..i + 1][..i] == queue[..i];
    }
    return None;
  }

  method CheckFanout(deliveries: seq<Delivery>) returns (ok: bool)
    ensures ok == FanoutFits(deliveries)
  {
    var total, i := 0, 0;
    while i < |deliveries|
      invariant 0 <= i <= |deliveries|
      invariant total == FanoutBytes(deliveries, i) <= MAX_TRANSIENT_FANOUT_BYTES
      invariant forall j :: 0 <= j < i ==> deliveries[j].frame.bytes <= MAX_FRAME_BYTES
    {
      FanoutGrows(deliveries, i + 1, |deliveries|);
      total := total + deliveries[i].frame.bytes + |deliveries[i].recipient|;
      if deliveries[i].frame.bytes > MAX_FRAME_BYTES || total > MAX_TRANSIENT_FANOUT_BYTES { return false; }
      i := i + 1;
    }
    return true;
  }

  lemma {:induction false} FanoutGrows(deliveries: seq<Delivery>, m: nat, n: nat)
    requires m <= n <= |deliveries|
    ensures FanoutBytes(deliveries, m) <= FanoutBytes(deliveries, n)
  {
    if m < n { FanoutGrows(deliveries, m, n - 1); }
  }

  function Evictions(plans: seq<Plan>): (evictions: seq<Option<nat>>)
    ensures |evictions| == |plans|
  {
    seq(|plans|, i requires 0 <= i < |plans| => plans[i].evictionIndex)
  }

  lemma EvictionsSnoc(plans: seq<Plan>, plan: Plan)
    ensures Evictions(plans + [plan]) == Evictions(plans) + [plan.evictionIndex]
  {
  }

  /** An uncommitted plan that matches the books. */
  ghost predicate FreshPlans(plan: seq<Plan>, b: Books, entries: seq<Entry>, now: nat) {
    FreshFor(plan, PlansFor(b, entries, now))
  }

  /** The plan before the commit fills in what was evicted. */
  ghost predicate FreshFor(plan: seq<Plan>, committed: seq<Plan>) {
    |plan| == |committed| && forall i :: 0 <= i < |plan| ==> plan[i] == committed[i].(evicted := None)
  }

  /** Where the mutation loop stands after the first i entries. */
  ghost predicate CommittedAt(c: Books, plans: seq<Plan>, b: Books, entries: seq<Entry>, i: nat, now: nat)
    requires i <= |entries|
  {
    c == PushUpTo(b, entries, i, now) && plans == PlansUpTo(b, entries, i, now)
  }

  lemma StepReady(plan: seq<Plan>, b: Books, entries: seq<Entry>, i: nat, now: nat)
    requires i < |entries| == |plan| && FreshPlans(plan, b, entries, now) && Admissible(b, entries, now)
    ensures FitsAt(b, entries, i, now) && plan[i] == PlanAt(b, entries, now, i).(evicted := None)
  {
    PlansUpToAt(b, entries, |entries|, now, i);
    AdmissibleAt(b, entries, |entries|, now, i);
  }

  /** Where the dry run stands after the first i entries. */
  ghost predicate DryRunAt(sim: Simulated, projected: nat, evictions: seq<Option<nat>>,
                           b: Books, entries: seq<Entry>, i: nat, now: nat)
    requires i <= |entries|
  {
    && Mirrors(sim, projected, PushUpTo(b, entries, i, now))
    && AdmissibleUpTo(b, entries, i, now)
    && evictions == Evictions(PlansUpTo(b, entries, i, now))
  }

  method DryStep(sim: Simulated, projected: nat, evictions: seq<Option<nat>>,
                 entries: seq<Entry>, i: nat, ghost b: Books, ghost now: nat)
      returns (ok: bool, next: Simulated, bytes: nat, more: seq<Option<nat>>)
    requires i < |entries| && DryRunAt(sim, projected, evictions, b, entries, i, now)
    ensures ok ==> DryRunAt(next, bytes, more, b, entries, i + 1, now)
    ensures !ok ==> !Admissible(b, entries, now)
  {
    var eviction;
    ok, next, bytes, eviction := SimulatePush(sim, projected, entries[i], PushUpTo(b, entries, i, now), now);
    more := evictions + [eviction];
    if ok {
      EvictionsSnoc(PlansUpTo(b, entries, i, now), PlanAt(b, entries, now, i));
    } else if Admissible(b, entries, now) {
      AdmissibleAt(b, entries, |entries|, now, i);
    }
  }

  /** The dry run: the eviction every entry would need, or the first obstacle. */
  method DryRun(pending: Pending, pendingBytes: nat, entries: seq<Entry>, ghost now: nat)
      returns (ok: bool, evictions: seq<Option<nat>>)
    ensures ok == Admissible(Books(pending, pendingBytes), entries, now)
    ensures ok ==> evictions == Evictions(PlansFor(Books(pending, pendingBytes), entries, now))
  {
    ghost var b := Books(pending, pendingBytes);
    evictions := [];
    var simulated: Simulated := map k | k in pending :: Shape(pending[k]);
    var projected := pendingBytes;
    var i := 0;
    while i < |entries|
      invariant 0 <= i <= |entries| && DryRunAt(simulated, projected, evictions, b, entries, i, now)
    {
      ok, simulated, projected, evictions := DryStep(simulated, projected, evictions, entries, i, b, now);
      if !ok { return false, []; }
      i := i + 1;
    }
    return true, evictions;
  }

  /** Whether an uncommitted plan asks for exactly the evictions of the dry run. */
  method MatchPlan(plan: seq<Plan>, evictions: seq<Option<nat>>, ghost committed: seq<Plan>) returns (ok: bool)
    requires |plan| == |committed| && forall i :: 0 <= i < |plan| ==> plan[i].key == committed[i].key
    requires evictions == Evictions(committed)
    ensures ok == FreshFor(plan, committed)
  {
    var i := 0;
    while i < |plan|
      invariant 0 <= i <= |plan|
      invariant forall j :: 0 <= j < i ==> plan[j] == committed[j].(evicted := None)
    {
      if plan[i].evictionIndex != evictions[i] || plan[i].evicted.Some? { return false; }
      i := i + 1;
    }
    return true;
  }

  function EntriesFor(plan: seq<Plan>, frames: seq<Frame>): (entries: seq<Entry>)
    requires |plan| == |frames|
  {
    seq(|plan|, i requires 0 <= i < |plan| => Entry(plan[i].key, frames[i]))
  }

  lemma OnlyElement<T>(s: set<T>, x: T)
    requires x in s && |s| <= 1
    ensures s == {x}
  {
    assert |s - {x}| == 0;
  }

  /** The search for the first prekey that nobody has leased. */
  method FindUnleased(pool: seq<Name>, leases: Leases, code: CodeId) returns (id: Option<Name>)
    ensures id == FirstUnleased(pool, leases, code)
  {
    var i := 0;
    while i < |pool|
      invariant 0 <= i <= |pool|
      invariant FirstUnleased(pool, leases, code) == FirstUnleased(pool[i..], leases, code)
    {
      if LeaseKey(code, pool[i]) !in leases { return Some(pool[i]); }
      assert pool[i..][1..] == pool[i + 1..];
      i := i + 1;
    }
    return None;
  }

  /** The scan for the frame that an acknowledgement names; a second match rejects it. */
  method FindOnlyMatch(queue: seq<PendingFrame>, a: Ack) returns (found: Option<nat>)
    ensures forall i: nat :: OnlyMatch(queue, a, i) <==> found == Some(i)
  {
    found := None;
    var i := 0;
    while i < |queue|
      invariant 0 <= i <= |queue|
      invariant found.Some? ==> found.value < i && MatchesAck(queue[found.value].frame, a)
      invariant forall j :: 0 <= j < i && MatchesAck(queue[j].frame, a) ==> found == Some(j)
    {
      if MatchesAck(queue[i].frame, a) {
        if found.Some? {
          assert forall j: nat :: !OnlyMatch(queue, a, j) by {
            var first := found.value;
            assert MatchesAck(queue[first].frame, a) && MatchesAck(queue[i].frame, a);
          }
          return None;
        }
        found := Some(i);
      }
      i := i + 1;
    }
  }

  class Relay {
    const ttl: nat
    var pending: Pending
    var pendingBytes: nat
    var leases: Leases
    var replayIds: ReplayIds
    var accounts: Accounts

    ghost function Tables(): State
      reads this
    {
      State(Books(pending, pendingBytes), leases, replayIds, accounts)
    }

    constructor (ttl: nat)
      ensures this.ttl == ttl && Tables() == Empty && Agrees(Tables())
    {
      this.ttl := ttl;
      pending, pendingBytes, leases, replayIds, accounts := map[], 0, map[], map[], map[];
    }

    // ---- Expiry -----------------------------------------------------------

    method PrunePendingQueues(now: nat)
      requires Balanced(Books(pending, pendingBytes))
      modifies this
      ensures Tables() == Prune(old(Tables()), now, ttl)
    {
      var expired := DrainQueues(now);
      ReleaseDetails(expired);
      PrunePrekeyLeases(now);
      LeasesLeftIsRelease(old(pending), old(leases), now, ttl, expired);
    }

    /** The pass over all queues; the expired prekey frames are collected for their leases. */
    method DrainQueues(now: nat) returns (expired: seq<Frame>)
      requires Balanced(Books(pending, pendingBytes))
      modifies this`pending, this`pendingBytes
      ensures pending == PrunedQueues(old(pending), now, ttl) && pendingBytes == BytesOf(pending)
      ensures Collected(old(pending), {}, now, ttl, expired)
    {
      ghost var start := pending;
      var todo := pending.Keys;
      expired := [];
      while todo != {}
        invariant PartlyDrained(start, pending, todo, now, ttl) && pendingBytes == BytesOf(pending)
        invariant Collected(start, todo, now, ttl, expired)
      {
        var key :| key in todo;
        var details := DrainQueue(key, now);
        CollectedExtends(start, todo, now, ttl, expired, key, details);
        expired := expired + details;
        todo := todo - {key};
      }
      DropEmptyKeepsBytes(pending);
      FullyDrained(start, pending, now, ttl);
      pending := DropEmpty(pending);
    }

    method DrainQueue(key: PendingKey, now: nat) returns (details: seq<Frame>)
      requires key in pending && pendingBytes == BytesOf(pending)
      modifies this`pending, this`pendingBytes
      ensures pending == old(pending)[key := Live(old(pending)[key], now, ttl)] && pendingBytes == BytesOf(pending)
      ensures forall f :: f in details <==> ExpiresIn(old(pending)[key], now, ttl, f)
    {
      var retained, freed;
      retained, freed, details := DrainExpired(pending[key], now, ttl);
      BytesOfReplace(pending, key, retained);
      pendingBytes := SatSub(pendingBytes, freed);
      pending := pending[key := retained];
    }

    method ReleaseDetails(details: seq<Frame>)
      modifies this`leases
      ensures leases == LeasesLeft(old(leases), details)
    {
      var i := 0;
      while i < |details|
        invariant 0 <= i <= |details|
        invariant leases == LeasesLeft(old(leases), details[..i])
      {
        var f := details[i];
        leases := map lk | lk in leases && !Carries(f, lk, leases[lk]) :: leases[lk];
        LeasesLeftExtends(old(leases), details, i);
        i := i + 1;
      }
      assert details[..|details|] == details;
    }

    method PrunePrekeyLeases(now: nat)
      modifies this`leases
      ensures leases == PrunedLeases(old(leases), pending, now)
    {
      leases := map lk | lk in leases && (Fresh(leases[lk], now) || InUse(pending, lk, leases[lk])) :: leases[lk];
    }

    // ---- The admission transaction ----------------------------------------

    /** `admit_prekey_leases` */
    method AdmitPrekeyLeases(deliveries: seq<Delivery>, c: Clock) returns (ok: bool)
      requires Balanced(Books(pending, pendingBytes)) && AccountsCanonical(accounts)
      modifies this
      ensures Tables() == Admitting(old(Tables()), c, ttl)
      ensures ok == LeasesHeld(leases, accounts, deliveries)
    {
      PrunePendingQueues(c.sweep);
      PrunePrekeyLeases(c.admit);
      var i := 0;
      while i < |deliveries|
        invariant 0 <= i <= |deliveries|
        invariant forall j :: 0 <= j < i && deliveries[j].frame.isPrekey ==> LeaseHeld(leases, accounts, deliveries[j])
      {
        var d := deliveries[i];
        if d.frame.isPrekey {
          if code :| code in accounts && accounts[code].username == d.recipient {
            var lk := LeaseKey(code, d.frame.prekeyId);
            if d.frame.prekeyId !in accounts[code].identity.pool || lk !in leases
               || !LeaseFor(leases[lk], d.frame.chat, d.frame.message, d.frame.sender, d.recipient)
            {
              return false;
            }
          } else {
            return false;
          }
        }
        i := i + 1;
      }
      return true;
    }

    /** The dry run against the live queues. */
    method Simulate(entries: seq<Entry>, ghost now: nat) returns (ok: bool, evictions: seq<Option<nat>>)
      ensures ok == (FramesValid(pending) && Admissible(Books(pending, pendingBytes), entries, now))
      ensures ok ==> evictions == Evictions(PlansFor(Books(pending, pendingBytes), entries, now))
    {
      if !FramesValid(pending) { return false, []; }
      ok, evictions := DryRun(pending, pendingBytes, entries, now);
    }

    /** `preflight_pending_frames` */
    method Preflight(m: Message, now: nat, ghost commitAt: nat) returns (outcome: Outcome, plans: seq<Plan>)
      requires Balanced(Books(pending, pendingBytes))
      modifies this
      ensures !FanoutFits(m.deliveries) ==> outcome == FanoutFull && Tables() == old(Tables())
      ensures FanoutFits(m.deliveries) ==>
        && Tables() == Prune(old(Tables()), now, ttl)
        && outcome == if FramesValid(pending) && Admissible(Books(pending, pendingBytes), EntriesOf(m), commitAt)
                      then Admitted else QueueFull
      ensures outcome == Admitted ==> FreshPlans(plans, Books(pending, pendingBytes), EntriesOf(m), commitAt)
    {
      plans := [];
      var fits := CheckFanout(m.deliveries);
      if !fits { return FanoutFull, []; }
      PrunePendingQueues(now);
      var entries := EntriesOf(m);
      var ok, evictions := Simulate(entries, commitAt);
      if !ok { return QueueFull, []; }
      PlanKeys(Books(pending, pendingBytes), entries, commitAt);
      plans := seq(|entries|, i requires 0 <= i < |entries| => Plan(entries[i].key, evictions[i], None));
      return Admitted, plans;
    }

    /**
      `commit_pending_frames`: either nothing changes, or the whole batch is
      queued. Once the validation has passed, the mutation loop cannot fail.
     */
    method Commit(frames: seq<Frame>, plan: seq<Plan>, now: nat) returns (ok: bool, plans: seq<Plan>)
      modifies this`pending, this`pendingBytes
      ensures ok == (|frames| == |plan|
        && FreshPlans(plan, old(Books(pending, pendingBytes)), EntriesFor(plan, frames), now)
        && FramesValid(old(pending)) && Admissible(old(Books(pending, pendingBytes)), EntriesFor(plan, frames), now))
      ensures !ok ==> pending == old(pending) && pendingBytes == old(pendingBytes)
      ensures ok ==>
        Books(pending, pendingBytes) == PushAll(old(Books(pending, pendingBytes)), EntriesFor(plan, frames), now)
      ensures ok ==> plans == PlansFor(old(Books(pending, pendingBytes)), EntriesFor(plan, frames), now)
    {
      if |frames| != |plan| { return false, []; }
      var valid := ValidatePlan(frames, plan, now);
      if !valid { return false, []; }
      plans := PushFrames(frames, plan, EntriesFor(plan, frames), now);
      return true, plans;
    }

    /** The mutation loop of the commit. */
    method PushFrames(frames: seq<Frame>, plan: seq<Plan>, ghost entries: seq<Entry>, now: nat)
        returns (plans: seq<Plan>)
      requires |frames| == |plan| == |entries|
      requires forall i :: 0 <= i < |frames| ==> entries[i] == Entry(plan[i].key, frames[i])
      requires FreshPlans(plan, Books(pending, pendingBytes), entries, now)
      requires Admissible(Books(pending, pendingBytes), entries, now)
      modifies this`pending, this`pendingBytes
      ensures Books(pending, pendingBytes) == PushAll(old(Books(pending, pendingBytes)), entries, now)
      ensures plans == PlansFor(old(Books(pending, pendingBytes)), entries, now)
    {
      ghost var b := Books(pending, pendingBytes);
      plans := [];
      var i := 0;
      while i < |frames|
        invariant 0 <= i <= |frames|
        invariant CommittedAt(Books(pending, pendingBytes), plans, b, entries, i, now)
      {
        StepReady(plan, b, entries, i, now);
        plans := PushFrame(frames[i], plan[i], plans, b, entries, i, now);
        i := i + 1;
      }
    }

    /** The validation of the commit: the whole plan against the live queues. */
    method ValidatePlan(frames: seq<Frame>, plan: seq<Plan>, ghost now: nat) returns (ok: bool)
      requires |frames| == |plan|
      ensures ok == (FreshPlans(plan, Books(pending, pendingBytes), EntriesFor(plan, frames), now)
        && FramesValid(pending) && Admissible(Books(pending, pendingBytes), EntriesFor(plan, frames), now))
    {
      var entries := EntriesFor(plan, frames);
      var evictions;
      ok, evictions := Simulate(entries, now);
      PlanKeys(Books(pending, pendingBytes), entries, now);
      if ok { ok := MatchPlan(plan, evictions, PlansFor(Books(pending, pendingBytes), entries, now)); }
    }

    /** One iteration of the mutation loop; its error branches are dead. */
    method PushFrame(frame: Frame, plan: Plan, done: seq<Plan>, ghost b: Books, ghost entries: seq<Entry>,
                     ghost i: nat, now: nat)
        returns (plans: seq<Plan>)
      requires i < |entries| && entries[i] == Entry(plan.key, frame)
      requires CommittedAt(Books(pending, pendingBytes), done, b, entries, i, now)
      requires FitsAt(b, entries, i, now) && plan == PlanAt(b, entries, now, i).(evicted := None)
      modifies this`pending, this`pendingBytes
      ensures CommittedAt(Books(pending, pendingBytes), plans, b, entries, i + 1, now)
    {
      var queue := QueueOf(pending, plan.key);
      var committed := plan;
      if |queue| >= MAX_PENDING_FRAMES {
        if plan.evictionIndex.None? { assert false; }
        var index := plan.evictionIndex.value;
        var evicted := queue[index];
        assert Shape(queue)[index] == SlotOf(evicted);
        if IsPrekeyFrame(evicted.frame) { assert false; }
        queue := RemoveAt(queue, index);
        pendingBytes := SatSub(pendingBytes, evicted.frame.bytes);
        committed := plan.(evicted := Some(evicted));
      } else if plan.evictionIndex.Some? {
        assert false;
      }
      pending := pending[plan.key := queue + [PendingFrame(frame, now)]];
      pendingBytes := pendingBytes + frame.bytes;
      plans := done + [committed];
    }

    /** `rollback_pending_frames` */
    method RollbackPending(entries: seq<Entry>, plans: seq<Plan>)
      requires |entries| == |plans|
      modifies this`pending, this`pendingBytes
      ensures Books(pending, pendingBytes) == Rollback(old(Books(pending, pendingBytes)), entries, plans)
    {
      ghost var b := Books(pending, pendingBytes);
      var i := 0;
      while i < |entries|
        invariant 0 <= i <= |entries|
        invariant Books(pending, pendingBytes) == UndoUpTo(b, entries, plans, i)
      {
        UndoEntry(entries[i], plans[i]);
        i := i + 1;
      }
      pending := DropEmpty(pending);
    }

    method UndoEntry(e: Entry, plan: Plan)
      modifies this`pending, this`pendingBytes
      ensures Books(pending, pendingBytes) == UndoOne(old(Books(pending, pendingBytes)), e, plan)
    {
      if plan.key !in pending { return; }
      var queue := pending[plan.key];
      var found := PositionLast(queue, e.frame);
      if found.Some? {
        pendingBytes := SatSub(pendingBytes, queue[found.value].frame.bytes);
        queue := RemoveAt(queue, found.value);
      }
      if plan.evicted.Some? {
        var at := if plan.evictionIndex.Some? then Min(plan.evictionIndex.value, |queue|) else |queue|;
        pendingBytes := pendingBytes + plan.evicted.value.frame.bytes;
        queue := InsertAt(queue, at, plan.evicted.value);
      }
      pending := pending[plan.key := queue];
    }

    /** `register_message_id` */
    method RegisterMessageId(key: ReplayKey, now: nat) returns (ok: bool)
      modifies this`replayIds
      ensures ok == CanRegister(old(replayIds), key, now)
      ensures replayIds == if ok then LiveReplayIds(old(replayIds), now)[key := now]
                           else LiveReplayIds(old(replayIds), now)
    {
      replayIds := map k | k in replayIds && SatSub(now, replayIds[k]) < REPLAY_WINDOW_MS :: replayIds[k];
      if key in replayIds || |SenderIds(replayIds, key.sender)| >= MAX_REPLAY_IDS_PER_SENDER
         || |replayIds| >= MAX_REPLAY_IDS
      {
        return false;
      }
      replayIds := replayIds[key := now];
      return true;
    }

    method UnregisterMessageId(key: ReplayKey)
      modifies this`replayIds
      ensures replayIds == old(replayIds) - {key}
    {
      replayIds := replayIds - {key};
    }

    /** `apply_identity_state`: a rejection changes nothing. */
    method ApplyIdentityState(code: CodeId, u: Update, allowReuse: bool, consumed: Option<Name>) returns (ok: bool)
      modifies this`accounts
      ensures ok == (code in old(accounts) && Applied(old(accounts)[code], u, allowReuse, consumed).Some?)
      ensures accounts == if ok then old(accounts)[code := Applied(old(accounts)[code], u, allowReuse, consumed).value]
                          else old(accounts)
    {
      if code !in accounts { return false; }
      var applied := Applied(accounts[code], u, allowReuse, consumed);
      if applied.None? { return false; }
      accounts := accounts[code := applied.value];
      return true;
    }

    /**
      The admission transaction of `route_encrypted_message_with_directory`.
      Whatever step refuses the message, the queues, the byte counter, the
      replay table, the leases and the accounts are those from before, up to
      what expired at the clock readings taken.
     */
    method RouteMessage(m: Message, c: Clock) returns (outcome: Outcome)
      requires Balanced(Books(pending, pendingBytes)) && AccountsCanonical(accounts)
      requires Prepared(m)
      modifies this
      ensures outcome == RouteOutcome(old(Tables()), m, c, ttl)
      ensures Tables() == Routed(old(Tables()), m, c, ttl)
      ensures outcome != Admitted ==> Tables() == Refused(old(Tables()), c, ttl, outcome)
    {
      var held := AdmitPrekeyLeases(m.deliveries, c);
      if !held { return NoLease; }
      outcome := RouteHeld(m, c, old(Tables()));
    }

    /** The admission of a message whose leases were found. */
    method RouteHeld(m: Message, c: Clock, ghost s: State) returns (outcome: Outcome)
      requires Balanced(Books(pending, pendingBytes)) && Prepared(m)
      requires Tables() == Admitting(s, c, ttl) && LeasesHeld(leases, accounts, m.deliveries)
      modifies this
      ensures outcome == RouteOutcome(s, m, c, ttl) && Tables() == Routed(s, m, c, ttl)
    {
      var plan;
      outcome, plan := Preflight(m, c.preflight, c.commit);
      if outcome != Admitted { return; }
      outcome := Conclude(m, plan, c);
    }

    /** Commit, register, apply, with compensation. */
    method Conclude(m: Message, plan: seq<Plan>, c: Clock) returns (outcome: Outcome)
      requires Balanced(Books(pending, pendingBytes)) && NoEmptyQueue(pending) && Prepared(m)
      requires FramesValid(pending) && Admissible(Books(pending, pendingBytes), EntriesOf(m), c.commit)
      requires FreshPlans(plan, Books(pending, pendingBytes), EntriesOf(m), c.commit)
      modifies this
      ensures outcome == ConcludedOutcome(old(Tables()), m, c)
      ensures Tables() == Concluded(old(Tables()), m, c)
    {
      ghost var ready := Tables();
      var entries := EntriesOf(m);
      var plans := CommitMessage(m, plan, c.commit);
      outcome := RegisterAndApply(m, c);
      if outcome != Admitted { UndoCommit(m, plans, ready.books, c.commit); }
    }

    /** The two steps after the commit that may still refuse; the second one takes the first one back. */
    method RegisterAndApply(m: Message, c: Clock) returns (outcome: Outcome)
      modifies this`replayIds, this`accounts
      ensures outcome == ConcludedOutcome(old(Tables()), m, c)
      ensures replayIds == Concluded(old(Tables()), m, c).replayIds
      ensures accounts == Concluded(old(Tables()), m, c).accounts
    {
      ghost var live := LiveReplayIds(replayIds, c.register);
      var key := ReplayKey(m.chat, m.sender, m.message);
      var registered := RegisterMessageId(key, c.register);
      if !registered { return ReplayRejected; }
      var applied := ApplyIdentityState(m.senderCode, m.update, false, None);
      if !applied {
        UnregisterMessageId(key);
        assert live[key := c.register] - {key} == live;
        return IdentityRejected;
      }
      return Admitted;
    }

    /** A plan that the dry run has just produced always commits. */
    method CommitMessage(m: Message, plan: seq<Plan>, now: nat) returns (plans: seq<Plan>)
      requires FramesValid(pending) && Admissible(Books(pending, pendingBytes), EntriesOf(m), now)
      requires FreshPlans(plan, Books(pending, pendingBytes), EntriesOf(m), now)
      modifies this`pending, this`pendingBytes
      ensures Books(pending, pendingBytes) == PushAll(old(Books(pending, pendingBytes)), EntriesOf(m), now)
      ensures plans == PlansFor(old(Books(pending, pendingBytes)), EntriesOf(m), now)
    {
      var frames := seq(|m.deliveries|, i requires 0 <= i < |m.deliveries| => m.deliveries[i].frame);
      PlanKeys(Books(pending, pendingBytes), EntriesOf(m), now);
      assert EntriesFor(plan, frames) == EntriesOf(m);
      var committed;
      committed, plans := Commit(frames, plan, now);
      assert committed;
    }

    /** The compensation gives back the books from before the commit. */
    method UndoCommit(m: Message, plans: seq<Plan>, ghost before: Books, ghost now: nat)
      requires Balanced(before) && NoEmptyQueue(before.pending) && Prepared(m)
      requires Books(pending, pendingBytes) == PushAll(before, EntriesOf(m), now)
      requires plans == PlansFor(before, EntriesOf(m), now)
      modifies this`pending, this`pendingBytes
      ensures Books(pending, pendingBytes) == before
    {
      RollbackPending(EntriesOf(m), plans);
      RollbackInverts(before, EntriesOf(m), now);
    }

    // ---- Leases -----------------------------------------------------------

    /** `lease_prekey`, once the conversation has been authorised. */
    method LeasePrekey(r: Request, sweep: nat, now: nat) returns (granted: Option<Name>)
      requires Balanced(Books(pending, pendingBytes)) && AccountsCanonical(accounts)
      modifies this
      ensures (Tables(), granted) == Leased(old(Tables()), r, sweep, now, ttl)
    {
      PrunePendingQueues(sweep);
      if code :| code in accounts && accounts[code].username == r.recipient {
        assert IsCodeOf(accounts, code, r.recipient);
        if !Canonical(accounts[code].identity) { return None; }
        PrunePrekeyLeases(now);
        granted := GrantLease(code, r, now);
      } else {
        return None;
      }
    }

    /** A repeated request gets its own lease again; a new one the first free prekey. */
    method GrantLease(code: CodeId, r: Request, now: nat) returns (granted: Option<Name>)
      requires code in accounts
      modifies this`leases
      ensures granted == LeaseChoice(old(Tables()), code, r)
      ensures leases == if granted.None? || LeaseKey(code, granted.value) in old(leases) then old(leases)
        else old(leases)[LeaseKey(code, granted.value) := Lease(r.chat, r.message, r.sender, r.recipient, now)]
    {
      var own := OwnLeases(leases, code, r);
      if |own| > 1 { return None; }
      if own != {} {
        var lk :| lk in own;
        OnlyElement(own, lk);
        return Some(lk.prekey);
      }
      if |leases| >= MAX_PREKEY_LEASES || |LeasesOf(leases, code)| >= MAX_PREKEY_LEASES_PER_RECIPIENT { return None; }
      granted := FindUnleased(accounts[code].identity.pool, leases, code);
      if granted.Some? {
        leases := leases[LeaseKey(code, granted.value) := Lease(r.chat, r.message, r.sender, r.recipient, now)];
      }
    }

    /** `release_unused_prekey_lease` */
    method ReleaseUnusedLease(r: Request, id: Name) returns (ok: bool)
      requires AccountsCanonical(accounts)
      modifies this`leases
      ensures ok == CanRelease(old(Tables()), r, id)
      ensures Tables() == LeaseReleased(old(Tables()), r, id)
    {
      if code :| code in accounts && accounts[code].username == r.recipient {
        assert IsCodeOf(accounts, code, r.recipient);
        var lk := LeaseKey(code, id);
        if lk !in leases || !LeaseFor(leases[lk], r.chat, r.message, r.sender, r.recipient)
           || InUse(pending, lk, leases[lk])
        {
          return false;
        }
        leases := leases - {lk};
        return true;
      } else {
        return false;
      }
    }

    // ---- Acknowledgement and identity updates -----------------------------

    /** `acknowledge_message`: every precondition is checked before anything is consumed. */
    method AcknowledgeMessage(a: Ack, now: nat) returns (ok: bool)
      requires Balanced(Books(pending, pendingBytes))
      modifies this
      ensures ok <==> exists i :: AckAccepted(Prune(old(Tables()), now, ttl), a, i)
      ensures Tables() == Acknowledged(old(Tables()), a, now, ttl)
    {
      PrunePendingQueues(now);
      var found := FindOnlyMatch(QueueOf(pending, AckKey(a)), a);
      if found.None? { return false; }
      ok := Consume(a, found.value);
    }

    /** The checks of an acknowledgement against its only matching frame, and its commit. */
    method Consume(a: Ack, i: nat) returns (ok: bool)
      requires OnlyMatch(QueueOf(pending, AckKey(a)), a, i)
      modifies this
      ensures ok == AckAccepted(old(Tables()), a, i)
      ensures Tables() == if ok then Acked(old(Tables()), a, i) else old(Tables())
    {
      var queue := QueueOf(pending, AckKey(a));
      var bytes := queue[i].frame.bytes;
      if pendingBytes < bytes { return false; }
      var lk := LeaseKey(a.code, a.used);
      if a.used != "" {
        if lk !in leases || !LeaseFor(leases[lk], a.chat, a.message, a.sender, a.username) { return false; }
      }
      if !Canonical(a.update.identity) || !OtherLeasesKept(leases, a.code, a.update.identity.pool, Consumed(a)) {
        return false;
      }
      ok := ApplyIdentityState(a.code, a.update, true, Consumed(a));
      if !ok { return false; }
      var rest := RemoveAt(queue, i);
      pendingBytes := pendingBytes - bytes;
      pending := if rest == [] then pending - {AckKey(a)} else pending[AckKey(a) := rest];
      if a.used != "" { leases := leases - {lk}; }
    }

    /** `update_identity_state` */
    method UpdateIdentityState(code: CodeId, u: Update) returns (ok: bool)
      modifies this`accounts
      ensures ok == Updatable(old(Tables()), code, u)
      ensures Tables() == Updated(old(Tables()), code, u)
    {
      ok := ApplyIdentityState(code, u, true, None);
    }
  }
}
