/**
  Receipts of control requests: a client handle is spent for the lifetime of
  the store's generation, cached answers live shorter, and a wipe opens the
  next generation.
 */
module ControlReceipts {
  import opened Basics
  import opened Maps

  type Digest = nat
  type Response = seq<nat>
  datatype Key = Key(session: nat, handle: nat)

  const RECEIPT_TTL_MS: nat := 10 * 60 * 1000
  const RECORD_BYTES: nat := 4 + 1 + 1 + 32 + 16 + 4 + 4096 + 16
  const MAX_RECEIPTS: nat := 4_096
  const MAX_RECEIPT_BYTES: nat := 32 * 1024 * 1024
  const MAX_SPENT_HANDLES: nat := 16_384
  const GENERATIONS: nat := U64_MAX + 1

  datatype Phase = InFlight | Complete(response: Response)
  datatype Receipt = Receipt(digest: Digest, generation: nat, createdAt: nat, phase: Phase)
  type Entries = map<Key, Receipt>

  datatype Ledger = Ledger(entries: Entries, spent: set<Key>, generation: nat)

  datatype Found = Missing | Mismatch | Stale | Used | Waiting | Cached(response: Response)
  datatype Reservation = Owner(generation: nat) | Existing | Conflict | Outdated | AlreadySpent | Capacity

  predicate Expired(r: Receipt, now: nat) {
    SatSub(now, r.createdAt) >= RECEIPT_TTL_MS
  }

  /** The room that n cached answers take. */
  function CostOf(n: nat): nat {
    n * 4_170
  }

  /** The room that n spent handles take. */
  function HandleCostOf(n: nat): nat {
    n * 48
  }

  // ---- The operations on values -------------------------------------------

  function ExpiredKeys(entries: Entries, now: nat): set<Key> {
    set k | k in entries && Expired(entries[k], now)
  }

  function Pruned(l: Ledger, now: nat): Ledger {
    l.(entries := Minus(l.entries, ExpiredKeys(l.entries, now)))
  }

  function FoundIn(l: Ledger, key: Key, digest: Digest): Found {
    if key !in l.entries then (if key in l.spent then Used else Missing)
    else if l.entries[key].digest != digest then Mismatch
    else match l.entries[key].phase case InFlight => Waiting case Complete(response) => Cached(response)
  }

  function LookedUp(l: Ledger, key: Key, digest: Digest, expected: nat, now: nat): (Ledger, Found) {
    if l.generation != expected then (l, Stale) else (Pruned(l, now), FoundIn(Pruned(l, now), key, digest))
  }

  function ReservationIn(l: Ledger, key: Key, digest: Digest): Reservation {
    if key in l.entries then (if l.entries[key].digest == digest then Existing else Conflict)
    else if key in l.spent then AlreadySpent
    else if |l.entries| >= MAX_RECEIPTS || CostOf(|l.entries|) + RECORD_BYTES > MAX_RECEIPT_BYTES
            || |l.spent| >= MAX_SPENT_HANDLES then Capacity
    else Owner(l.generation)
  }

  function Reserved(l: Ledger, key: Key, digest: Digest, expected: nat, now: nat): (Ledger, Reservation) {
    if l.generation != expected then (l, Outdated)
    else
      var p := Pruned(l, now);
      var outcome := ReservationIn(p, key, digest);
      if !outcome.Owner? then (p, outcome)
      else
        (p.(entries := p.entries[key := Receipt(digest, p.generation, now, InFlight)], spent := p.spent + {key}),
         outcome)
  }

  /** The completion finds a receipt of its own digest and generation. */
  predicate Lands(l: Ledger, key: Key, digest: Digest, generation: nat, response: Response) {
    && key in l.entries && l.entries[key].digest == digest && l.entries[key].generation == generation
    && |response| == RECORD_BYTES
  }

  function Completed(l: Ledger, key: Key, digest: Digest, generation: nat, response: Response, now: nat): Ledger {
    var p := Pruned(l, now);
    if !Lands(p, key, digest, generation, response) then p
    else p.(entries := p.entries[key := p.entries[key].(phase := Complete(response), createdAt := now)])
  }

  function Cleared(l: Ledger): Ledger {
    Ledger(map[], {}, (l.generation + 1) % GENERATIONS)
  }

  // ---- Runs ---------------------------------------------------------------

  datatype Op =
    | Prune(now: nat)
    | Lookup(key: Key, digest: Digest, generation: nat, now: nat)
    | Reserve(key: Key, digest: Digest, generation: nat, now: nat)
    | Finish(key: Key, digest: Digest, generation: nat, response: Response, now: nat)
    | Clear

  const Start := Ledger(map[], {}, 0)

  function Next(l: Ledger, op: Op): Ledger {
    match op
    case Prune(now) => Pruned(l, now)
    case Lookup(key, digest, expected, now) => LookedUp(l, key, digest, expected, now).0
    case Reserve(key, digest, expected, now) => Reserved(l, key, digest, expected, now).0
    case Finish(key, digest, generation, response, now) => Completed(l, key, digest, generation, response, now)
    case Clear => Cleared(l)
  }

  ghost predicate Run(ls: seq<Ledger>, ops: seq<Op>) {
    |ls| == |ops| + 1 && ls[0] == Start && forall i :: 0 <= i < |ops| ==> StepAt(ls, ops, i)
  }

  predicate StepAt(ls: seq<Ledger>, ops: seq<Op>, i: nat)
    requires i < |ops| && i + 1 < |ls|
  {
    ls[i + 1] == Next(ls[i], ops[i])
  }

  /** Receipts belong to spent handles and to the current generation; answers have the record size. */
  ghost predicate Linked(l: Ledger) {
    && (forall k :: k in l.entries ==> k in l.spent && l.entries[k].generation == l.generation)
    && (forall k :: k in l.entries && l.entries[k].phase.Complete? ==> |l.entries[k].phase.response| == RECORD_BYTES)
    && l.generation < GENERATIONS
  }

  ghost predicate Capped(l: Ledger) {
    |l.entries| <= MAX_RECEIPTS && CostOf(|l.entries|) <= MAX_RECEIPT_BYTES && |l.spent| <= MAX_SPENT_HANDLES
  }

  lemma OpLinked(l: Ledger, op: Op)
    requires Linked(l)
    ensures Linked(Next(l, op))
  {
  }

  lemma OpCapped(l: Ledger, op: Op)
    requires Capped(l)
    ensures Capped(Next(l, op))
  {
    if !op.Clear? {
      SizeMinus(l.entries, ExpiredKeys(l.entries, op.now));
      var p := Pruned(l, op.now);
      if op.Reserve? {
        SizeAdd(p.entries, op.key, Receipt(op.digest, p.generation, op.now, InFlight));
      } else if op.Finish? && op.key in p.entries {
        SizeAdd(p.entries, op.key, p.entries[op.key].(phase := Complete(op.response), createdAt := op.now));
      }
    }
  }

  lemma {:induction false} RunKeeps(ls: seq<Ledger>, ops: seq<Op>, n: nat)
    requires Run(ls, ops) && n < |ls|
    ensures Linked(ls[n]) && Capped(ls[n])
  {
    if n > 0 {
      RunKeeps(ls, ops, n - 1);
      assert StepAt(ls, ops, n - 1);
      OpLinked(ls[n - 1], ops[n - 1]);
      OpCapped(ls[n - 1], ops[n - 1]);
    }
  }

  // ---- One owner per handle and generation --------------------------------

  predicate GrantsOwner(l: Ledger, op: Op, key: Key) {
    op.Reserve? && op.key == key && Reserved(l, key, op.digest, op.generation, op.now).1.Owner?
  }

  lemma SpentStays(l: Ledger, op: Op, m: Ledger, key: Key)
    requires m == Next(l, op) && !op.Clear? && key in l.spent
    ensures key in m.spent
  {
  }

  lemma GrantSpends(l: Ledger, op: Op, m: Ledger, key: Key)
    requires m == Next(l, op) && GrantsOwner(l, op, key)
    ensures key in m.spent
  {
  }

  lemma {:induction false} SpentUntilCleared(ls: seq<Ledger>, ops: seq<Op>, m: nat, n: nat, key: Key)
    requires Run(ls, ops) && m <= n < |ls| && key in ls[m].spent
    requires forall k :: m <= k < n ==> !ops[k].Clear?
    ensures key in ls[n].spent
  {
    if m < n {
      SpentUntilCleared(ls, ops, m, n - 1, key);
      assert StepAt(ls, ops, n - 1);
      SpentStays(ls[n - 1], ops[n - 1], ls[n], key);
    }
  }

  lemma SpentBlocks(l: Ledger, op: Op, key: Key)
    requires key in l.spent
    ensures !GrantsOwner(l, op, key)
  {
  }

  /** Between two wipes no handle is granted twice, whatever expired in between. */
  lemma GrantedOncePerGeneration(ls: seq<Ledger>, ops: seq<Op>, i: nat, j: nat, key: Key)
    requires Run(ls, ops) && i < j < |ops| && GrantsOwner(ls[i], ops[i], key)
    requires forall k :: i < k < j ==> !ops[k].Clear?
    ensures !GrantsOwner(ls[j], ops[j], key)
  {
    assert StepAt(ls, ops, i);
    GrantSpends(ls[i], ops[i], ls[i + 1], key);
    SpentUntilCleared(ls, ops, i + 1, j, key);
    SpentBlocks(ls[j], ops[j], key);
  }

  // ---- Generations --------------------------------------------------------

  /** The number of wipes from the i-th operation up to the n-th. */
  function Wipes(ops: seq<Op>, i: nat, n: nat): nat
    requires i <= n <= |ops|
  {
    if i == n then 0 else Wipes(ops, i, n - 1) + if ops[n - 1].Clear? then 1 else 0
  }

  lemma {:induction false} GenerationCountsWipes(ls: seq<Ledger>, ops: seq<Op>, i: nat, n: nat)
    requires Run(ls, ops) && i <= n < |ls|
    ensures ls[n].generation == (ls[i].generation + Wipes(ops, i, n)) % GENERATIONS
  {
    RunKeeps(ls, ops, i);
    if i < n {
      GenerationCountsWipes(ls, ops, i, n - 1);
      assert StepAt(ls, ops, n - 1);
      SuccessorModulo(ls[i].generation + Wipes(ops, i, n - 1));
    }
  }

  lemma SuccessorModulo(a: nat)
    ensures (a % GENERATIONS + 1) % GENERATIONS == (a + 1) % GENERATIONS
  {
  }

  /**
    A worker that got its handle before a wipe and completes after it changes
    nothing: its completion acts only as the pruning it begins with. The one
    way around is a multiple of 2^64 wipes.
   */
  lemma LateCompletionIsIgnored(ls: seq<Ledger>, ops: seq<Op>, i: nat, j: nat)
    requires Run(ls, ops) && i < j < |ops| && ops[j].Finish? && ops[j].generation == ls[i].generation
    requires Wipes(ops, i, j) % GENERATIONS != 0
    ensures ls[j + 1] == Pruned(ls[j], ops[j].now)
  {
    RunKeeps(ls, ops, i);
    RunKeeps(ls, ops, j);
    GenerationCountsWipes(ls, ops, i, j);
    ModuloMoves(ls[i].generation, Wipes(ops, i, j));
    assert StepAt(ls, ops, j);
  }

  lemma ModuloMoves(a: nat, b: nat)
    requires a < GENERATIONS && b % GENERATIONS != 0
    ensures (a + b) % GENERATIONS != a
  {
  }

  // ---- What each request is answered --------------------------------------

  /** The receipt is still fresh at this reading. */
  predicate Kept(l: Ledger, key: Key, now: nat) {
    key in l.entries && now < l.entries[key].createdAt + RECEIPT_TTL_MS
  }

  function KeptKeys(l: Ledger, now: nat): set<Key> {
    set k | k in l.entries && Kept(l, k, now)
  }

  lemma PrunedIsKept(l: Ledger, now: nat)
    ensures Pruned(l, now).entries.Keys == KeptKeys(l, now) && |Pruned(l, now).entries| == |KeptKeys(l, now)|
    ensures forall k :: Kept(l, k, now) ==> Pruned(l, now).entries[k] == l.entries[k]
  {
    assert |Pruned(l, now).entries| == |Pruned(l, now).entries.Keys|;
  }

  /** The answers of a lookup, each with its exact condition; the generation comes first. */
  lemma LookupIff(l: Ledger, key: Key, digest: Digest, expected: nat, now: nat)
    requires Linked(l)
    ensures var found := LookedUp(l, key, digest, expected, now).1;
      var current, kept := expected == l.generation, Kept(l, key, now);
      && (found.Stale? <==> !current)
      && (found.Missing? <==> current && key !in l.spent)
      && (found.Used? <==> current && key in l.spent && !kept)
      && (found.Mismatch? <==> current && kept && l.entries[key].digest != digest)
      && (found.Waiting? <==> current && kept && l.entries[key].digest == digest && l.entries[key].phase.InFlight?)
      && (found.Cached? <==> current && kept && l.entries[key].digest == digest && l.entries[key].phase.Complete?)
      && (found.Cached? ==> l.entries[key].phase == Complete(found.response))
  {
    PrunedIsKept(l, now);
  }

  /** A grant needs a handle never used and room for one more receipt and handle. The byte limit never binds. */
  predicate Grantable(l: Ledger, key: Key, now: nat) {
    key !in l.spent && |l.spent| < MAX_SPENT_HANDLES && |KeptKeys(l, now)| < MAX_RECEIPTS
  }

  /** The answers of a reservation, each with its exact condition. */
  lemma ReservationIff(l: Ledger, key: Key, digest: Digest, expected: nat, now: nat)
    requires Linked(l)
    ensures var answer := Reserved(l, key, digest, expected, now).1;
      var current, kept := expected == l.generation, Kept(l, key, now);
      && (answer.Outdated? <==> !current)
      && (answer.Owner? <==> current && Grantable(l, key, now))
      && (answer.Owner? ==> answer.generation == l.generation)
      && (answer.Capacity? <==> current && key !in l.spent && !Grantable(l, key, now))
      && (answer.AlreadySpent? <==> current && key in l.spent && !kept)
      && (answer.Existing? <==> current && kept && l.entries[key].digest == digest)
      && (answer.Conflict? <==> current && kept && l.entries[key].digest != digest)
  {
    PrunedIsKept(l, now);
  }

  // ---- Answers are replayed -----------------------------------------------

  /** The operation leaves this handle alone and reads the clock before `until`. */
  predicate Quiet(op: Op, key: Key, until: nat) {
    match op
    case Prune(now) => now < until
    case Lookup(_, _, _, now) => now < until
    case Reserve(_, _, _, now) => now < until
    case Finish(other, _, _, _, now) => other != key && now < until
    case Clear => false
  }

  predicate HoldsReceipt(l: Ledger, key: Key, r: Receipt) {
    key in l.entries && l.entries[key] == r && l.generation == r.generation
  }

  lemma ReceiptStays(l: Ledger, op: Op, m: Ledger, key: Key, r: Receipt)
    requires m == Next(l, op) && HoldsReceipt(l, key, r) && Quiet(op, key, r.createdAt + RECEIPT_TTL_MS)
    ensures HoldsReceipt(m, key, r)
  {
  }

  lemma {:induction false} ReceiptHeld(ls: seq<Ledger>, ops: seq<Op>, i: nat, n: nat, key: Key, r: Receipt)
    requires Run(ls, ops) && i <= n < |ls| && HoldsReceipt(ls[i], key, r)
    requires forall k :: i <= k < n ==> Quiet(ops[k], key, r.createdAt + RECEIPT_TTL_MS)
    ensures HoldsReceipt(ls[n], key, r)
  {
    if i < n {
      ReceiptHeld(ls, ops, i, n - 1, key, r);
      assert StepAt(ls, ops, n - 1);
      ReceiptStays(ls[n - 1], ops[n - 1], ls[n], key, r);
    }
  }

  /** A granted request waits for its worker: until it expires, retries are told so. */
  lemma GrantedIsAwaited(ls: seq<Ledger>, ops: seq<Op>, i: nat, n: nat, key: Key, now: nat)
    requires Run(ls, ops) && i < n < |ls| && GrantsOwner(ls[i], ops[i], key)
    requires forall k :: i < k < n ==> Quiet(ops[k], key, ops[i].now + RECEIPT_TTL_MS)
    requires now < ops[i].now + RECEIPT_TTL_MS
    ensures LookedUp(ls[n], key, ops[i].digest, ops[i].generation, now).1 == Waiting
    ensures Reserved(ls[n], key, ops[i].digest, ops[i].generation, now).1 == Existing
  {
    GrantHeld(ls, ops, i, n, key);
    Awaited(ls[n], key, Receipt(ops[i].digest, ops[i].generation, ops[i].now, InFlight), now);
  }

  lemma GrantHeld(ls: seq<Ledger>, ops: seq<Op>, i: nat, n: nat, key: Key)
    requires Run(ls, ops) && i < n < |ls| && GrantsOwner(ls[i], ops[i], key)
    requires forall k :: i < k < n ==> Quiet(ops[k], key, ops[i].now + RECEIPT_TTL_MS)
    ensures HoldsReceipt(ls[n], key, Receipt(ops[i].digest, ops[i].generation, ops[i].now, InFlight))
  {
    assert StepAt(ls, ops, i);
    GrantHolds(ls[i], ops[i], ls[i + 1], key);
    ReceiptHeld(ls, ops, i + 1, n, key, Receipt(ops[i].digest, ops[i].generation, ops[i].now, InFlight));
  }

  lemma GrantHolds(l: Ledger, op: Op, m: Ledger, key: Key)
    requires m == Next(l, op) && GrantsOwner(l, op, key)
    ensures HoldsReceipt(m, key, Receipt(op.digest, op.generation, op.now, InFlight))
  {
  }

  lemma Awaited(l: Ledger, key: Key, r: Receipt, now: nat)
    requires HoldsReceipt(l, key, r) && r.phase.InFlight? && now < r.createdAt + RECEIPT_TTL_MS
    ensures LookedUp(l, key, r.digest, r.generation, now).1 == Waiting
    ensures Reserved(l, key, r.digest, r.generation, now).1 == Existing
  {
  }

  lemma Replayed(l: Ledger, key: Key, r: Receipt, now: nat)
    requires HoldsReceipt(l, key, r) && r.phase.Complete? && now < r.createdAt + RECEIPT_TTL_MS
    ensures LookedUp(l, key, r.digest, r.generation, now).1 == Cached(r.phase.response)
  {
  }

  /**
    A completion that finds its receipt is answered from the cache: for one
    receipt period every later lookup of its handle, digest and generation
    returns exactly its response, short of a wipe or another completion of the
    handle.
   */
  lemma CompletedIsReplayed(ls: seq<Ledger>, ops: seq<Op>, j: nat, n: nat, key: Key, now: nat)
    requires Run(ls, ops) && j < n < |ls| && ops[j].Finish? && ops[j].key == key && Kept(ls[j], key, ops[j].now)
    requires ls[j].entries[key].digest == ops[j].digest && ls[j].entries[key].generation == ops[j].generation
    requires |ops[j].response| == RECORD_BYTES
    requires forall k :: j < k < n ==> Quiet(ops[k], key, ops[j].now + RECEIPT_TTL_MS)
    requires now < ops[j].now + RECEIPT_TTL_MS
    ensures LookedUp(ls[n], key, ops[j].digest, ops[j].generation, now).1 == Cached(ops[j].response)
  {
    var r := ls[j].entries[key];
    var done := r.(createdAt := ops[j].now, phase := Complete(ops[j].response));
    RunKeeps(ls, ops, j);
    assert StepAt(ls, ops, j);
    FinishReplaces(ls[j], ops[j], ls[j + 1], key, r);
    ReceiptHeld(ls, ops, j + 1, n, key, done);
    Replayed(ls[n], key, done, now);
  }

  lemma FinishReplaces(l: Ledger, op: Op, m: Ledger, key: Key, r: Receipt)
    requires m == Next(l, op) && op.Finish? && op.key == key && HoldsReceipt(l, key, r)
    requires r.digest == op.digest && r.generation == op.generation && |op.response| == RECORD_BYTES
    requires op.now < r.createdAt + RECEIPT_TTL_MS
    ensures HoldsReceipt(m, key, r.(createdAt := op.now, phase := Complete(op.response)))
  {
  }

  // ---- Cached answers -----------------------------------------------------

  predicate Supplies(op: Op, key: Key, digest: Digest, generation: nat, response: Response) {
    op.Finish? && op.key == key && op.digest == digest && op.generation == generation && op.response == response
  }

  ghost predicate SuppliedSince(ops: seq<Op>, n: nat, key: Key, digest: Digest, generation: nat, response: Response)
    requires n <= |ops|
  {
    exists i :: 0 <= i < n && Supplies(ops[i], key, digest, generation, response) && Wipes(ops, i, n) == 0
  }

  /**
    A cached answer reaches only the digest it was computed for: it was supplied
    for the same handle, digest and generation, and since the last wipe.
   */
  lemma {:induction false} CachedAnswerIsGenuine(ls: seq<Ledger>, ops: seq<Op>, n: nat, key: Key, digest: Digest,
                                                 now: nat)
    requires Run(ls, ops) && n < |ls| && FoundIn(Pruned(ls[n], now), key, digest).Cached?
    ensures SuppliedSince(ops, n, key, digest, ls[n].generation, FoundIn(Pruned(ls[n], now), key, digest).response)
  {
    var response := FoundIn(Pruned(ls[n], now), key, digest).response;
    assert StepAt(ls, ops, n - 1);
    RunKeeps(ls, ops, n - 1);
    var op := ops[n - 1];
    assert !op.Clear? && ls[n].generation == ls[n - 1].generation;
    if Supplies(op, key, digest, ls[n].generation, response) {
      assert Wipes(ops, n - 1, n) == 0 by { assert Wipes(ops, n - 1, n - 1) == 0; }
    } else {
      assert key in ls[n - 1].entries && ls[n - 1].entries[key] == ls[n].entries[key];
      CachedAnswerIsGenuine(ls, ops, n - 1, key, digest, ls[n].entries[key].createdAt);
      var i :| 0 <= i < n - 1 && Supplies(ops[i], key, digest, ls[n].generation, response) && Wipes(ops, i, n - 1) == 0;
      assert Wipes(ops, i, n) == 0;
    }
  }

  // ---- The store ----------------------------------------------------------

  class ControlReceiptStore {
    var entries: Entries
    var usedBytes: nat
    var generation: nat
    var spentHandles: set<Key>
    var spentHandleBytes: nat

    ghost function View(): Ledger
      reads this
    {
      Ledger(entries, spentHandles, generation)
    }

    /** Both byte counters are the sizes of their tables. */
    ghost predicate Valid()
      reads this
    {
      && Linked(View()) && Capped(View())
      && usedBytes == CostOf(|entries|) && spentHandleBytes == HandleCostOf(|spentHandles|)
    }

    constructor ()
      ensures Valid() && View() == Start
    {
      entries, usedBytes, generation, spentHandles, spentHandleBytes := map[], 0, 0, {}, 0;
    }

    method PruneAt(now: nat)
      requires Valid()
      modifies this`entries, this`usedBytes
      ensures Valid() && View() == Pruned(old(View()), now)
    {
      OpLinked(View(), Prune(now));
      OpCapped(View(), Prune(now));
      var start := entries;
      var expired := ExpiredKeys(entries, now);
      var todo := expired;
      assert Minus(start, expired - todo) == start;
      while todo != {}
        invariant todo <= expired
        invariant entries == Minus(start, expired - todo) && usedBytes == CostOf(|entries|)
      {
        var key :| key in todo;
        assert Minus(start, expired - (todo - {key})) == Minus(entries, {key});
        SizeDrop(entries, key);
        entries := Minus(entries, {key});
        usedBytes := SatSub(usedBytes, RECORD_BYTES);
        todo := todo - {key};
      }
      assert expired - todo == expired;
    }

    method LookupAt(key: Key, digest: Digest, expected: nat, now: nat) returns (found: Found)
      requires Valid()
      modifies this
      ensures Valid() && (View(), found) == LookedUp(old(View()), key, digest, expected, now)
    {
      if generation != expected { return Stale; }
      PruneAt(now);
      if key !in entries { return if key in spentHandles then Used else Missing; }
      var receipt := entries[key];
      if receipt.digest != digest { return Mismatch; }
      match receipt.phase {
        case InFlight => return Waiting;
        case Complete(response) => return Cached(response);
      }
    }

    method ReserveAt(key: Key, digest: Digest, expected: nat, now: nat) returns (outcome: Reservation)
      requires Valid()
      modifies this
      ensures Valid() && (View(), outcome) == Reserved(old(View()), key, digest, expected, now)
    {
      OpLinked(View(), Reserve(key, digest, expected, now));
      OpCapped(View(), Reserve(key, digest, expected, now));
      if generation != expected { return Outdated; }
      PruneAt(now);
      if key in entries { return if entries[key].digest == digest then Existing else Conflict; }
      if key in spentHandles { return AlreadySpent; }
      var next := usedBytes + RECORD_BYTES;
      if |entries| >= MAX_RECEIPTS || next > MAX_RECEIPT_BYTES || |spentHandles| >= MAX_SPENT_HANDLES
         || spentHandleBytes + 48 > MAX_SPENT_HANDLES * 48
      {
        return Capacity;
      }
      Insert(key, Receipt(digest, generation, now, InFlight));
      return Owner(generation);
    }

    method Insert(key: Key, receipt: Receipt)
      requires key !in entries && key !in spentHandles
      requires usedBytes == CostOf(|entries|) && spentHandleBytes == HandleCostOf(|spentHandles|)
      modifies this
      ensures View() == old(Ledger(entries[key := receipt], spentHandles + {key}, generation))
      ensures usedBytes == CostOf(|entries|) && spentHandleBytes == HandleCostOf(|spentHandles|)
    {
      SizeAdd(entries, key, receipt);
      spentHandles := spentHandles + {key};
      spentHandleBytes := spentHandleBytes + 48;
      entries := entries[key := receipt];
      usedBytes := usedBytes + RECORD_BYTES;
    }

    method CompleteAt(key: Key, digest: Digest, of: nat, response: Response, now: nat)
      requires Valid()
      modifies this
      ensures Valid() && View() == Completed(old(View()), key, digest, of, response, now)
    {
      OpLinked(View(), Finish(key, digest, of, response, now));
      OpCapped(View(), Finish(key, digest, of, response, now));
      PruneAt(now);
      if key !in entries { return; }
      var receipt := entries[key];
      if receipt.digest != digest || receipt.generation != of || |response| != RECORD_BYTES { return; }
      SizeAdd(entries, key, receipt.(phase := Complete(response), createdAt := now));
      entries := entries[key := receipt.(phase := Complete(response), createdAt := now)];
    }

    method ClearAll()
      requires Valid()
      modifies this
      ensures Valid() && View() == Cleared(old(View()))
    {
      entries, usedBytes, spentHandles, spentHandleBytes := map[], 0, {}, 0;
      generation := (generation + 1) % GENERATIONS;
    }
  }
}
