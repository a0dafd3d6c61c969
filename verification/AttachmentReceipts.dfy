/**
  Receipts of attachment actions. A handle becomes spent when its receipt
  expires; when the ledger of spent handles is full, expired receipts stay
  instead. Which receipts a nearly full ledger takes is left open, as it depends
  on the iteration order of a hash map.
 */
module AttachmentReceipts {
  import opened Basics
  import opened Maps

  type Digest = nat
  type Response = seq<nat>
  datatype Key = Key(session: nat, handle: nat)

  const RECEIPT_TTL_MS: nat := 10 * 60 * 1000
  const RECORD_BYTES: nat := 4 + 1 + 1 + 32 + 16 + 4 + 4096 + 16
  const MAX_RECEIPTS: nat := 4_096
  const MAX_RECEIPT_BYTES: nat := 32 * 1024 * 1024
  const MAX_SPENT_HANDLES: nat := 8_192

  datatype Phase = InFlight | Complete(response: Response)
  datatype Receipt = Receipt(digest: Digest, generation: nat, uploadRetry: bool, createdAt: nat, phase: Phase)
  type Entries = map<Key, Receipt>

  datatype Ledger = Ledger(entries: Entries, spent: set<Key>)

  datatype Found =
    | Missing | Mismatch | Stale | Waiting(retry: bool) | Cached(response: Response, retry: bool) | Used | Saturated
  datatype Reservation = Owner | Existing | Conflict | Capacity | AlreadySpent

  predicate Expired(r: Receipt, now: nat) {
    SatSub(now, r.createdAt) >= RECEIPT_TTL_MS
  }

  /** The room that n cached answers take. */
  function CostOf(n: nat): nat {
    n * 4_170
  }

  // ---- The operations on values -------------------------------------------

  function ExpiredKeys(entries: Entries, now: nat): set<Key> {
    set k | k in entries && Expired(entries[k], now)
  }

  /** These expired receipts turn into spent handles. */
  function Moved(l: Ledger, keys: set<Key>): Ledger {
    Ledger(Minus(l.entries, keys), l.spent + keys)
  }

  /** A prune moves all expired receipts, or as many as the ledger has room for. */
  ghost predicate PruneChoice(l: Ledger, now: nat, keys: set<Key>) {
    && keys <= ExpiredKeys(l.entries, now)
    && (keys == ExpiredKeys(l.entries, now) || |l.spent + keys| >= MAX_SPENT_HANDLES)
    && (keys != {} ==> |l.spent + keys| <= MAX_SPENT_HANDLES)
  }

  /** A complete receipt that the full ledger could not take. */
  predicate Stuck(r: Receipt, now: nat) {
    r.phase.Complete? && Expired(r, now)
  }

  function FoundIn(l: Ledger, key: Key, digest: Digest, generation: nat, now: nat): Found {
    if key in l.spent then Used
    else if key !in l.entries then Missing
    else
      var r := l.entries[key];
      if r.generation != generation then Stale
      else if r.digest != digest then Mismatch
      else if Stuck(r, now) then Saturated
      else
        match r.phase
        case InFlight => Waiting(r.uploadRetry)
        case Complete(response) => Cached(response, r.uploadRetry)
  }

  function ReservationIn(l: Ledger, key: Key, digest: Digest, now: nat): Reservation {
    if key in l.spent then AlreadySpent
    else if key in l.entries then
      if Stuck(l.entries[key], now) then Capacity
      else if l.entries[key].digest == digest then Existing else Conflict
    else if |l.spent| >= MAX_SPENT_HANDLES || |l.entries| >= MAX_RECEIPTS
            || CostOf(|l.entries|) + RECORD_BYTES > MAX_RECEIPT_BYTES then Capacity
    else Owner
  }

  function Reserved(l: Ledger, key: Key, digest: Digest, generation: nat, retry: bool, now: nat): Ledger {
    if ReservationIn(l, key, digest, now) != Owner then l
    else l.(entries := l.entries[key := Receipt(digest, generation, retry, now, InFlight)])
  }

  predicate Lands(l: Ledger, key: Key, digest: Digest, generation: nat, response: Response) {
    && key in l.entries && l.entries[key].digest == digest && l.entries[key].generation == generation
    && |response| == RECORD_BYTES
  }

  function Completed(l: Ledger, key: Key, digest: Digest, generation: nat, response: Response, now: nat): Ledger {
    if !Lands(l, key, digest, generation, response) then l
    else l.(entries := l.entries[key := l.entries[key].(phase := Complete(response), createdAt := now)])
  }

  // ---- Runs ---------------------------------------------------------------

  /** Every operation but the wipe prunes first; `moved` is what that prune took. */
  datatype Op =
    | Lookup(key: Key, digest: Digest, generation: nat, now: nat, moved: set<Key>)
    | Reserve(key: Key, digest: Digest, generation: nat, retry: bool, now: nat, moved: set<Key>)
    | Finish(key: Key, digest: Digest, generation: nat, response: Response, now: nat, moved: set<Key>)
    | Clear

  const Start := Ledger(map[], {})

  function Next(l: Ledger, op: Op): Ledger {
    match op
    case Lookup(_, _, _, _, moved) => Moved(l, moved)
    case Reserve(key, digest, generation, retry, now, moved) =>
      Reserved(Moved(l, moved), key, digest, generation, retry, now)
    case Finish(key, digest, generation, response, now, moved) =>
      Completed(Moved(l, moved), key, digest, generation, response, now)
    case Clear => Start
  }

  ghost predicate Run(ls: seq<Ledger>, ops: seq<Op>) {
    |ls| == |ops| + 1 && ls[0] == Start && forall i :: 0 <= i < |ops| ==> StepAt(ls, ops, i)
  }

  ghost predicate StepAt(ls: seq<Ledger>, ops: seq<Op>, i: nat)
    requires i < |ops| && i + 1 < |ls|
  {
    StepsTo(ls[i], ops[i], ls[i + 1])
  }

  ghost predicate StepsTo(l: Ledger, op: Op, m: Ledger) {
    (!op.Clear? ==> PruneChoice(l, op.now, op.moved)) && m == Next(l, op)
  }

  ghost predicate Linked(l: Ledger) {
    && (forall k :: k in l.entries ==> k !in l.spent)
    && (forall k :: k in l.entries && l.entries[k].phase.Complete? ==> |l.entries[k].phase.response| == RECORD_BYTES)
  }

  ghost predicate Capped(l: Ledger) {
    |l.entries| <= MAX_RECEIPTS && CostOf(|l.entries|) <= MAX_RECEIPT_BYTES && |l.spent| <= MAX_SPENT_HANDLES
  }

  lemma OpLinked(l: Ledger, op: Op)
    requires Linked(l)
    ensures Linked(Next(l, op))
  {
  }

  lemma MoveKeeps(l: Ledger, now: nat, keys: set<Key>)
    requires Linked(l) && Capped(l) && PruneChoice(l, now, keys)
    ensures Linked(Moved(l, keys)) && Capped(Moved(l, keys))
  {
    SizeMinus(l.entries, keys);
    assert keys == {} ==> l.spent + keys == l.spent;
  }

  lemma OpCapped(l: Ledger, op: Op, m: Ledger)
    requires Linked(l) && Capped(l) && StepsTo(l, op, m)
    ensures Capped(m)
  {
    if !op.Clear? {
      MoveKeeps(l, op.now, op.moved);
      var p := Moved(l, op.moved);
      if op.Reserve? {
        SizeAdd(p.entries, op.key, Receipt(op.digest, op.generation, op.retry, op.now, InFlight));
      } else if op.Finish? && op.key in p.entries {
        SizeAdd(p.entries, op.key, p.entries[op.key].(phase := Complete(op.response), createdAt := op.now));
      }
    }
  }

  lemma OpKeeps(l: Ledger, op: Op, m: Ledger)
    requires Linked(l) && Capped(l) && StepsTo(l, op, m)
    ensures Linked(m) && Capped(m)
  {
    OpLinked(l, op);
    OpCapped(l, op, m);
  }

  ghost predicate KeptAt(ls: seq<Ledger>, i: nat)
    requires i < |ls|
  {
    Linked(ls[i]) && Capped(ls[i])
  }

  lemma StepAtKeeps(ls: seq<Ledger>, ops: seq<Op>, i: nat)
    requires i < |ops| && i + 1 < |ls| && StepAt(ls, ops, i) && KeptAt(ls, i)
    ensures KeptAt(ls, i + 1)
  {
    OpKeeps(ls[i], ops[i], ls[i + 1]);
  }

  lemma {:induction false} RunKeeps(ls: seq<Ledger>, ops: seq<Op>, n: nat)
    requires Run(ls, ops) && n < |ls|
    ensures KeptAt(ls, n)
  {
    if n > 0 {
      RunKeeps(ls, ops, n - 1);
      StepAtKeeps(ls, ops, n - 1);
    }
  }

  // ---- One owner per handle between wipes ---------------------------------

  /** The handle has a receipt or is spent. */
  predicate Taken(l: Ledger, key: Key) {
    key in l.entries || key in l.spent
  }

  predicate GrantsOwner(l: Ledger, op: Op, key: Key) {
    op.Reserve? && op.key == key && ReservationIn(Moved(l, op.moved), key, op.digest, op.now) == Owner
  }

  lemma TakenStays(l: Ledger, op: Op, m: Ledger, key: Key)
    requires m == Next(l, op) && !op.Clear? && Taken(l, key)
    ensures Taken(m, key)
  {
  }

  lemma {:induction false} TakenUntilCleared(ls: seq<Ledger>, ops: seq<Op>, i: nat, n: nat, key: Key)
    requires Run(ls, ops) && i < n < |ls| && GrantsOwner(ls[i], ops[i], key)
    requires forall k :: i < k < n ==> !ops[k].Clear?
    ensures Taken(ls[n], key)
  {
    assert StepAt(ls, ops, n - 1);
    if i + 1 < n {
      TakenUntilCleared(ls, ops, i, n - 1, key);
      TakenStays(ls[n - 1], ops[n - 1], ls[n], key);
    }
  }

  lemma TakenBlocks(l: Ledger, op: Op, key: Key)
    requires Taken(l, key)
    ensures !GrantsOwner(l, op, key)
  {
  }

  /** Between two wipes no handle is granted twice, however full the ledger of spent handles is. */
  lemma GrantedOnceBetweenWipes(ls: seq<Ledger>, ops: seq<Op>, i: nat, j: nat, key: Key)
    requires Run(ls, ops) && i < j < |ops| && GrantsOwner(ls[i], ops[i], key)
    requires forall k :: i < k < j ==> !ops[k].Clear?
    ensures !GrantsOwner(ls[j], ops[j], key)
  {
    TakenUntilCleared(ls, ops, i, j, key);
    TakenBlocks(ls[j], ops[j], key);
  }

  // ---- Generations and digests --------------------------------------------

  /** A completion for another generation acts only as the pruning it begins with. */
  lemma OtherGenerationIgnored(l: Ledger, op: Op)
    requires op.Finish? && op.key in l.entries && l.entries[op.key].generation != op.generation
    ensures Next(l, op) == Moved(l, op.moved)
  {
  }

  predicate Supplies(op: Op, key: Key, digest: Digest, generation: nat, response: Response) {
    op.Finish? && op.key == key && op.digest == digest && op.generation == generation && op.response == response
  }

  ghost predicate SuppliedSince(ops: seq<Op>, n: nat, key: Key, digest: Digest, generation: nat, response: Response)
    requires n <= |ops|
  {
    exists i :: 0 <= i < n && Supplies(ops[i], key, digest, generation, response)
             && forall k :: i <= k < n ==> !ops[k].Clear?
  }

  /** The receipt under this key holds this answer. */
  predicate Holds(l: Ledger, key: Key, digest: Digest, generation: nat, response: Response) {
    && key in l.entries && l.entries[key].digest == digest && l.entries[key].generation == generation
    && l.entries[key].phase == Complete(response)
  }

  lemma HeldBefore(l: Ledger, op: Op, m: Ledger, key: Key, digest: Digest, generation: nat, response: Response)
    requires m == Next(l, op) && Holds(m, key, digest, generation, response)
    requires !Supplies(op, key, digest, generation, response)
    ensures !op.Clear? && Holds(l, key, digest, generation, response)
  {
  }

  lemma {:induction false} HeldAnswerIsGenuine(ls: seq<Ledger>, ops: seq<Op>, n: nat, key: Key, digest: Digest,
                                               generation: nat, response: Response)
    requires Run(ls, ops) && n < |ls| && Holds(ls[n], key, digest, generation, response)
    ensures SuppliedSince(ops, n, key, digest, generation, response)
  {
    assert StepAt(ls, ops, n - 1);
    var op := ops[n - 1];
    if !Supplies(op, key, digest, generation, response) {
      HeldBefore(ls[n - 1], op, ls[n], key, digest, generation, response);
      HeldAnswerIsGenuine(ls, ops, n - 1, key, digest, generation, response);
      var i :| 0 <= i < n - 1 && Supplies(ops[i], key, digest, generation, response)
            && forall k :: i <= k < n - 1 ==> !ops[k].Clear?;
      assert forall k :: i <= k < n ==> !ops[k].Clear?;
    }
  }

  /**
    A cached answer reaches only the handle, digest and generation that it was
    supplied for, since the last wipe, and only while it is fresh.
   */
  lemma CachedAnswerIsGenuine(ls: seq<Ledger>, ops: seq<Op>, n: nat, key: Key, digest: Digest, generation: nat,
                              now: nat, moved: set<Key>)
    requires Run(ls, ops) && n < |ls| && FoundIn(Moved(ls[n], moved), key, digest, generation, now).Cached?
    ensures SuppliedSince(ops, n, key, digest, generation,
                          FoundIn(Moved(ls[n], moved), key, digest, generation, now).response)
    ensures !Expired(ls[n].entries[key], now)
  {
    HeldAnswerIsGenuine(ls, ops, n, key, digest, generation,
                        FoundIn(Moved(ls[n], moved), key, digest, generation, now).response);
  }

  // ---- What each request is answered --------------------------------------

  /** Only a full ledger leaves an expired receipt in place. */
  lemma LeftOverMeansFull(l: Ledger, now: nat, moved: set<Key>, key: Key)
    requires PruneChoice(l, now, moved) && key in l.entries && key !in moved
    requires l.entries[key].createdAt + RECEIPT_TTL_MS <= now
    ensures |l.spent + moved| >= MAX_SPENT_HANDLES
  {
    assert key in ExpiredKeys(l.entries, now);
  }

  /** A prune takes expired receipts only. */
  lemma MovedIsExpired(l: Ledger, now: nat, moved: set<Key>, key: Key)
    requires PruneChoice(l, now, moved) && key in moved
    ensures key in l.entries && l.entries[key].createdAt + RECEIPT_TTL_MS <= now
  {
    assert key in ExpiredKeys(l.entries, now);
  }

  /** The answers of a lookup, each with its exact condition. */
  lemma LookupIff(l: Ledger, key: Key, digest: Digest, generation: nat, now: nat, moved: set<Key>)
    requires Linked(l) && PruneChoice(l, now, moved)
    ensures var found := FoundIn(Moved(l, moved), key, digest, generation, now);
      var kept := key in l.entries && key !in moved;
      var mine := kept && l.entries[key].generation == generation && l.entries[key].digest == digest;
      && (found.Missing? <==> key !in l.spent && key !in l.entries)
      && (found.Used? <==> key in l.spent || key in moved)
      && (found.Stale? <==> kept && l.entries[key].generation != generation)
      && (found.Mismatch? <==> kept && l.entries[key].generation == generation && l.entries[key].digest != digest)
      && (found.Waiting? <==> mine && l.entries[key].phase.InFlight?)
      && (found.Cached? <==> mine && l.entries[key].phase.Complete? && now < l.entries[key].createdAt + RECEIPT_TTL_MS)
      && (found.Cached? ==> l.entries[key].phase == Complete(found.response))
      && (found.Cached? || found.Waiting? ==> found.retry == l.entries[key].uploadRetry)
      && (found.Saturated? <==>
            mine && l.entries[key].phase.Complete? && l.entries[key].createdAt + RECEIPT_TTL_MS <= now)
  {
    if key in moved { MovedIsExpired(l, now, moved, key); }
  }

  /** A grant needs a handle never used, and room among the used handles and the receipts. */
  predicate Grantable(l: Ledger, key: Key, moved: set<Key>) {
    && key !in l.spent && key !in l.entries
    && |l.spent + moved| < MAX_SPENT_HANDLES && |Minus(l.entries, moved)| < MAX_RECEIPTS
  }

  /** With the receipts within their number, the byte limit never binds. */
  lemma RoomIsCount(p: Ledger, key: Key, digest: Digest, now: nat)
    requires key !in p.entries && key !in p.spent
    ensures ReservationIn(p, key, digest, now)
         == if |p.spent| < MAX_SPENT_HANDLES && |p.entries| < MAX_RECEIPTS then Owner else Capacity
  {
  }

  /** The answers of a reservation, each with its exact condition; the byte limit never binds. */
  lemma ReservationIff(l: Ledger, key: Key, digest: Digest, now: nat, moved: set<Key>)
    requires Linked(l) && PruneChoice(l, now, moved)
    ensures var answer := ReservationIn(Moved(l, moved), key, digest, now);
      var kept := key in l.entries && key !in moved;
      var stuck := kept && l.entries[key].phase.Complete? && l.entries[key].createdAt + RECEIPT_TTL_MS <= now;
      && (answer.Owner? <==> Grantable(l, key, moved))
      && (answer.AlreadySpent? <==> key in l.spent || key in moved)
      && (answer.Existing? <==> kept && !stuck && l.entries[key].digest == digest)
      && (answer.Conflict? <==> kept && !stuck && l.entries[key].digest != digest)
      && (answer.Capacity? <==> stuck || (key !in l.spent && key !in l.entries && !Grantable(l, key, moved)))
  {
    if key in moved { MovedIsExpired(l, now, moved, key); }
    if key !in l.spent && key !in l.entries { RoomIsCount(Moved(l, moved), key, digest, now); }
  }

  // ---- Answers are replayed -----------------------------------------------

  /** The operation leaves this handle alone and reads the clock before `until`. */
  predicate Quiet(op: Op, key: Key, until: nat) {
    match op
    case Lookup(_, _, _, now, _) => now < until
    case Reserve(_, _, _, _, now, _) => now < until
    case Finish(other, _, _, _, now, _) => other != key && now < until
    case Clear => false
  }

  predicate HoldsReceipt(l: Ledger, key: Key, r: Receipt) {
    key in l.entries && l.entries[key] == r && key !in l.spent
  }

  lemma FreshStays(l: Ledger, key: Key, r: Receipt, now: nat, keys: set<Key>)
    requires HoldsReceipt(l, key, r) && now < r.createdAt + RECEIPT_TTL_MS && PruneChoice(l, now, keys)
    ensures HoldsReceipt(Moved(l, keys), key, r)
  {
    assert key !in ExpiredKeys(l.entries, now);
  }

  lemma ReceiptStays(l: Ledger, op: Op, m: Ledger, key: Key, r: Receipt)
    requires StepsTo(l, op, m) && HoldsReceipt(l, key, r) && Quiet(op, key, r.createdAt + RECEIPT_TTL_MS)
    ensures HoldsReceipt(m, key, r)
  {
    FreshStays(l, key, r, op.now, op.moved);
  }

  lemma {:induction false} ReceiptHeld(ls: seq<Ledger>, ops: seq<Op>, i: nat, n: nat, key: Key, r: Receipt)
    requires Run(ls, ops) && i <= n < |ls| && HoldsReceipt(ls[i], key, r)
    requires forall k :: i <= k < n ==> Quiet(ops[k], key, r.createdAt + RECEIPT_TTL_MS)
    ensures HoldsReceipt(ls[n], key, r)
  {
    if i < n {
      ReceiptHeld(ls, ops, i, n - 1, key, r);
      assert StepAt(ls, ops, n - 1);
      ReceiptStays(ls[n - 1], ops[n - 1], ls[n], key, r);
    }
  }

  /** The receipt that a granted reservation leaves. */
  function Granted(op: Op): Receipt
    requires op.Reserve?
  {
    Receipt(op.digest, op.generation, op.retry, op.now, InFlight)
  }

  lemma GrantHolds(l: Ledger, op: Op, m: Ledger, key: Key)
    requires StepsTo(l, op, m) && GrantsOwner(l, op, key)
    ensures HoldsReceipt(m, key, Granted(op))
  {
  }

  /** A granted request waits for its worker: until it expires, retries are told so. */
  lemma GrantedIsAwaited(ls: seq<Ledger>, ops: seq<Op>, i: nat, n: nat, key: Key, now: nat, moved: set<Key>)
    requires Run(ls, ops) && i < n < |ls| && GrantsOwner(ls[i], ops[i], key)
    requires forall k :: i < k < n ==> Quiet(ops[k], key, ops[i].now + RECEIPT_TTL_MS)
    requires now < ops[i].now + RECEIPT_TTL_MS && PruneChoice(ls[n], now, moved)
    ensures FoundIn(Moved(ls[n], moved), key, ops[i].digest, ops[i].generation, now) == Waiting(ops[i].retry)
    ensures ReservationIn(Moved(ls[n], moved), key, ops[i].digest, now) == Existing
  {
    GrantHeld(ls, ops, i, n, key);
    FreshStays(ls[n], key, Granted(ops[i]), now, moved);
  }

  lemma GrantHeld(ls: seq<Ledger>, ops: seq<Op>, i: nat, n: nat, key: Key)
    requires Run(ls, ops) && i < n < |ls| && GrantsOwner(ls[i], ops[i], key)
    requires forall k :: i < k < n ==> Quiet(ops[k], key, ops[i].now + RECEIPT_TTL_MS)
    ensures HoldsReceipt(ls[n], key, Granted(ops[i]))
  {
    assert StepAt(ls, ops, i);
    GrantHolds(ls[i], ops[i], ls[i + 1], key);
    ReceiptHeld(ls, ops, i + 1, n, key, Granted(ops[i]));
  }

  /**
    A completion that finds its receipt is answered from the cache: for one
    receipt period every later lookup of its handle, digest and generation
    returns exactly its response, short of a wipe or another completion of the
    handle.
   */
  lemma CompletedIsReplayed(ls: seq<Ledger>, ops: seq<Op>, j: nat, n: nat, key: Key, now: nat, moved: set<Key>)
    requires Run(ls, ops) && j < n < |ls| && ops[j].Finish? && ops[j].key == key
    requires Lands(Moved(ls[j], ops[j].moved), key, ops[j].digest, ops[j].generation, ops[j].response)
    requires forall k :: j < k < n ==> Quiet(ops[k], key, ops[j].now + RECEIPT_TTL_MS)
    requires now < ops[j].now + RECEIPT_TTL_MS && PruneChoice(ls[n], now, moved)
    ensures FoundIn(Moved(ls[n], moved), key, ops[j].digest, ops[j].generation, now)
         == Cached(ops[j].response, ls[j].entries[key].uploadRetry)
  {
    var done := ls[j].entries[key].(createdAt := ops[j].now, phase := Complete(ops[j].response));
    RunKeeps(ls, ops, j);
    assert KeptAt(ls, j);
    assert StepAt(ls, ops, j);
    FinishReplaces(ls[j], ops[j], ls[j + 1], key);
    ReceiptHeld(ls, ops, j + 1, n, key, done);
    Replayed(ls[n], key, done, now, moved);
  }

  lemma Replayed(l: Ledger, key: Key, r: Receipt, now: nat, moved: set<Key>)
    requires HoldsReceipt(l, key, r) && r.phase.Complete? && now < r.createdAt + RECEIPT_TTL_MS
    requires PruneChoice(l, now, moved)
    ensures FoundIn(Moved(l, moved), key, r.digest, r.generation, now) == Cached(r.phase.response, r.uploadRetry)
  {
    FreshStays(l, key, r, now, moved);
  }

  lemma FinishReplaces(l: Ledger, op: Op, m: Ledger, key: Key)
    requires Linked(l) && StepsTo(l, op, m) && op.Finish? && op.key == key
    requires Lands(Moved(l, op.moved), key, op.digest, op.generation, op.response)
    ensures HoldsReceipt(m, key, l.entries[key].(createdAt := op.now, phase := Complete(op.response)))
  {
  }

  // ---- The store ----------------------------------------------------------

  lemma MovedNone(l: Ledger, keys: set<Key>)
    ensures Moved(l, keys - keys) == l
  {
    assert Minus(l.entries, keys - keys) == l.entries;
  }

  lemma MovedMore(l: Ledger, expired: set<Key>, todo: set<Key>, key: Key)
    requires key in todo && todo <= expired
    ensures var m, n := Moved(l, expired - todo), Moved(l, expired - (todo - {key}));
      n.entries == Minus(m.entries, {key}) && n.spent == m.spent + {key}
  {
  }

  class AttachmentReceiptStore {
    var entries: Entries
    var spent: set<Key>
    var usedBytes: nat

    ghost function View(): Ledger
      reads this
    {
      Ledger(entries, spent)
    }

    ghost predicate Valid()
      reads this
    {
      Linked(View()) && Capped(View()) && usedBytes == CostOf(|entries|)
    }

    constructor ()
      ensures Valid() && View() == Start
    {
      entries, spent, usedBytes := map[], {}, 0;
    }

    method Prune(now: nat) returns (ghost moved: set<Key>)
      requires Valid()
      modifies this
      ensures Valid() && PruneChoice(old(View()), now, moved) && View() == Moved(old(View()), moved)
    {
      ghost var start := View();
      var todo := MoveExpired(now);
      moved := ExpiredKeys(start.entries, now) - todo;
      MoveKeeps(start, now, moved);
    }

    /** The loop over the expired receipts; it stops early at a full ledger. */
    method MoveExpired(now: nat) returns (todo: set<Key>)
      requires |spent| <= MAX_SPENT_HANDLES && usedBytes == CostOf(|entries|)
      modifies this
      ensures todo <= ExpiredKeys(old(entries), now)
      ensures View() == Moved(old(View()), ExpiredKeys(old(entries), now) - todo)
      ensures |spent| <= MAX_SPENT_HANDLES && usedBytes == CostOf(|entries|)
      ensures todo == {} || |spent| == MAX_SPENT_HANDLES
    {
      ghost var start := View();
      var expired := ExpiredKeys(entries, now);
      todo := expired;
      MovedNone(start, expired);
      while todo != {}
        invariant todo <= expired && View() == Moved(start, expired - todo)
        invariant |spent| <= MAX_SPENT_HANDLES && usedBytes == CostOf(|entries|)
      {
        if |spent| >= MAX_SPENT_HANDLES { return; }
        var key :| key in todo;
        MoveOne(key);
        MovedMore(start, expired, todo, key);
        todo := todo - {key};
      }
    }

    method MoveOne(key: Key)
      requires key in entries && usedBytes == CostOf(|entries|) && |spent| < MAX_SPENT_HANDLES
      modifies this
      ensures entries == Minus(old(entries), {key}) && spent == old(spent) + {key}
      ensures usedBytes == CostOf(|entries|) && |spent| <= MAX_SPENT_HANDLES
    {
      SizeDrop(entries, key);
      entries := Minus(entries, {key});
      usedBytes := SatSub(usedBytes, RECORD_BYTES);
      spent := spent + {key};
    }

    method LookupAt(key: Key, digest: Digest, generation: nat, now: nat) returns (found: Found, ghost moved: set<Key>)
      requires Valid()
      modifies this
      ensures Valid() && StepsTo(old(View()), Lookup(key, digest, generation, now, moved), View())
      ensures found == FoundIn(View(), key, digest, generation, now)
    {
      moved := Prune(now);
      if key in spent { return Used, moved; }
      if key !in entries { return Missing, moved; }
      var receipt := entries[key];
      if receipt.generation != generation { return Stale, moved; }
      if receipt.digest != digest { return Mismatch, moved; }
      if Stuck(receipt, now) { return Saturated, moved; }
      match receipt.phase {
        case InFlight => return Waiting(receipt.uploadRetry), moved;
        case Complete(response) => return Cached(response, receipt.uploadRetry), moved;
      }
    }

    method ReserveAt(key: Key, digest: Digest, generation: nat, retry: bool, now: nat)
        returns (outcome: Reservation, ghost moved: set<Key>)
      requires Valid()
      modifies this
      ensures Valid() && StepsTo(old(View()), Reserve(key, digest, generation, retry, now, moved), View())
      ensures outcome == ReservationIn(Moved(old(View()), moved), key, digest, now)
    {
      moved := Prune(now);
      if key in spent { return AlreadySpent, moved; }
      if key in entries {
        if Stuck(entries[key], now) { return Capacity, moved; }
        return if entries[key].digest == digest then Existing else Conflict, moved;
      }
      if |spent| >= MAX_SPENT_HANDLES { return Capacity, moved; }
      var next := usedBytes + RECORD_BYTES;
      if |entries| >= MAX_RECEIPTS || next > MAX_RECEIPT_BYTES { return Capacity, moved; }
      SizeAdd(entries, key, Receipt(digest, generation, retry, now, InFlight));
      entries := entries[key := Receipt(digest, generation, retry, now, InFlight)];
      usedBytes := next;
      return Owner, moved;
    }

    method CompleteAt(key: Key, digest: Digest, generation: nat, response: Response, now: nat)
        returns (ghost moved: set<Key>)
      requires Valid()
      modifies this
      ensures Valid() && StepsTo(old(View()), Finish(key, digest, generation, response, now, moved), View())
    {
      moved := Prune(now);
      FinishReceipt(key, digest, generation, response, now);
    }

    method FinishReceipt(key: Key, digest: Digest, generation: nat, response: Response, now: nat)
      requires Valid()
      modifies this`entries
      ensures Valid() && View() == Completed(old(View()), key, digest, generation, response, now)
    {
      if key !in entries { return; }
      var receipt := entries[key];
      if receipt.digest != digest || receipt.generation != generation || |response| != RECORD_BYTES { return; }
      SizeAdd(entries, key, receipt.(phase := Complete(response), createdAt := now));
      entries := entries[key := receipt.(phase := Complete(response), createdAt := now)];
    }

    method ClearAll()
      modifies this
      ensures Valid() && View() == Start
    {
      entries, spent, usedBytes := map[], {}, 0;
    }
  }
}
