/**
  Receipts of authenticated bootstrap requests: execute once, replay the sealed
  answer, and never open a request id again once its answer is sealed.
 */
module BootstrapReceipts {
  import opened Basics
  import opened Maps

  type RequestId = nat
  type Digest = nat
  type Response = seq<nat>

  const RECEIPT_TTL_MS: nat := 10 * 60 * 1000
  const RESPONSE_BYTES: nat := 65_536 + 16
  const MAX_RECEIPTS: nat := 4096
  const MAX_RECEIPT_BYTES: nat := 32 * 1024 * 1024
  const MAX_SPENT_IDS: nat := 8192

  datatype Phase = InFlight | Complete(response: Response)
  datatype Receipt = Receipt(digest: Digest, createdAt: nat, phase: Phase)
  type Entries = map<RequestId, Receipt>

  datatype Ledger = Ledger(entries: Entries, spent: map<RequestId, Digest>, terminal: set<RequestId>)

  datatype Found = Missing | Mismatch | Waiting | Cached(response: Response) | Used
  datatype Reservation = Owner | Existing | Conflict | Capacity | AlreadySpent

  predicate Expired(r: Receipt, now: nat) {
    SatSub(now, r.createdAt) >= RECEIPT_TTL_MS
  }

  /** The room that n cached answers take. */
  function CostOf(n: nat): nat {
    n * 65_552
  }

  // ---- The operations on values -------------------------------------------

  function ExpiredIds(entries: Entries, now: nat): set<RequestId> {
    set id | id in entries && Expired(entries[id], now)
  }

  function SealedIn(entries: Entries, ids: set<RequestId>): set<RequestId> {
    set id | id in ids && id in entries && entries[id].phase.Complete?
  }

  /** The ledger once these receipts are gone; sealed answers leave their mark. */
  function Without(l: Ledger, gone: set<RequestId>): Ledger {
    l.(entries := Minus(l.entries, gone), terminal := l.terminal + SealedIn(l.entries, gone))
  }

  /** With a full ledger nothing expires: an id must not be forgotten. */
  function Dropped(l: Ledger, gone: set<RequestId>): Ledger {
    if |l.spent| >= MAX_SPENT_IDS then l else Without(l, gone)
  }

  function Pruned(l: Ledger, now: nat): Ledger {
    Dropped(l, ExpiredIds(l.entries, now))
  }

  function FoundIn(l: Ledger, id: RequestId, digest: Digest): Found {
    if id in l.entries then
      if l.entries[id].digest != digest then Mismatch
      else match l.entries[id].phase case InFlight => Waiting case Complete(response) => Cached(response)
    else if id !in l.spent then Missing
    else if l.spent[id] == digest then Used else Mismatch
  }

  function ReservationIn(l: Ledger, id: RequestId, digest: Digest): Reservation {
    if id in l.entries then (if l.entries[id].digest == digest then Existing else Conflict)
    else if id in l.spent then (if l.spent[id] == digest then AlreadySpent else Conflict)
    else if |l.spent| >= MAX_SPENT_IDS || |l.entries| >= MAX_RECEIPTS
            || CostOf(|l.entries|) + RESPONSE_BYTES > MAX_RECEIPT_BYTES then Capacity
    else Owner
  }

  function Reserved(l: Ledger, id: RequestId, digest: Digest, now: nat): Ledger {
    var p := Pruned(l, now);
    if ReservationIn(p, id, digest) != Owner then p
    else p.(entries := p.entries[id := Receipt(digest, now, InFlight)], spent := p.spent[id := digest])
  }

  function Completed(l: Ledger, id: RequestId, digest: Digest, response: Response, now: nat): Ledger {
    var p := Pruned(l, now);
    if id !in p.spent || p.spent[id] != digest then p
    else if id !in p.entries then p.(terminal := p.terminal + {id})
    else if p.entries[id].digest != digest then p
    else p.(entries := p.entries[id := Receipt(digest, now, Complete(response))])
  }

  predicate CanAbort(l: Ledger, id: RequestId, digest: Digest) {
    && id in l.spent && l.spent[id] == digest
    && (if id in l.entries then l.entries[id].phase.InFlight? else id !in l.terminal)
  }

  function Aborted(l: Ledger, id: RequestId, digest: Digest): Ledger {
    if CanAbort(l, id, digest) then l.(entries := Minus(l.entries, {id}), spent := Minus(l.spent, {id})) else l
  }

  function Cleared(l: Ledger): Ledger {
    l.(entries := map[], terminal := l.terminal + l.spent.Keys)
  }

  // ---- Runs ---------------------------------------------------------------

  datatype Op =
    | Prune(now: nat)
    | Lookup(id: RequestId, digest: Digest, now: nat)
    | Reserve(id: RequestId, digest: Digest, now: nat)
    | Finish(id: RequestId, digest: Digest, response: Response, now: nat)
    | Abort(id: RequestId, digest: Digest)
    | Clear

  const Start := Ledger(map[], map[], {})

  function Next(l: Ledger, op: Op): Ledger {
    match op
    case Prune(now) => Pruned(l, now)
    case Lookup(_, _, now) => Pruned(l, now)
    case Reserve(id, digest, now) => Reserved(l, id, digest, now)
    case Finish(id, digest, response, now) => Completed(l, id, digest, response, now)
    case Abort(id, digest) => Aborted(l, id, digest)
    case Clear => Cleared(l)
  }

  ghost predicate Run(ls: seq<Ledger>, ops: seq<Op>) {
    |ls| == |ops| + 1 && ls[0] == Start && forall i :: 0 <= i < |ops| ==> StepAt(ls, ops, i)
  }

  predicate StepAt(ls: seq<Ledger>, ops: seq<Op>, i: nat)
    requires i < |ops| && i + 1 < |ls|
  {
    StepsTo(ls[i], ops[i], ls[i + 1])
  }

  predicate StepsTo(l: Ledger, op: Op, m: Ledger) {
    m == Next(l, op)
  }

  /** Entries carry the digest of the ledger, and an id marked as sealed has no entry. */
  ghost predicate Linked(l: Ledger) {
    && (forall id :: id in l.entries ==> id in l.spent && l.spent[id] == l.entries[id].digest)
    && (forall id :: id in l.terminal ==> id in l.spent && id !in l.entries)
  }

  ghost predicate Capped(l: Ledger) {
    |l.entries| <= MAX_RECEIPTS && CostOf(|l.entries|) <= MAX_RECEIPT_BYTES && |l.spent| <= MAX_SPENT_IDS
  }

  lemma PruneLinked(l: Ledger, now: nat)
    requires Linked(l)
    ensures Linked(Pruned(l, now))
  {
  }

  lemma OpLinked(l: Ledger, op: Op, m: Ledger)
    requires Linked(l) && StepsTo(l, op, m)
    ensures Linked(m)
  {
    if op.Prune? || op.Lookup? || op.Reserve? || op.Finish? { PruneLinked(l, op.now); }
  }

  lemma OpCapped(l: Ledger, op: Op, m: Ledger)
    requires Capped(l) && StepsTo(l, op, m)
    ensures Capped(m)
  {
    if op.Prune? || op.Lookup? || op.Reserve? || op.Finish? {
      SizeMinus(l.entries, ExpiredIds(l.entries, op.now));
      var p := Pruned(l, op.now);
      if op.Reserve? {
        SizeAdd(p.entries, op.id, Receipt(op.digest, op.now, InFlight));
        SizeAdd(p.spent, op.id, op.digest);
      } else if op.Finish? {
        SizeAdd(p.entries, op.id, Receipt(op.digest, op.now, Complete(op.response)));
      }
    } else if op.Abort? {
      SizeMinus(l.entries, {op.id});
      SizeMinus(l.spent, {op.id});
    }
  }

  lemma {:induction false} RunKeeps(ls: seq<Ledger>, ops: seq<Op>, n: nat)
    requires Run(ls, ops) && n < |ls|
    ensures Linked(ls[n]) && Capped(ls[n])
  {
    if n > 0 {
      RunKeeps(ls, ops, n - 1);
      assert StepAt(ls, ops, n - 1);
      OpLinked(ls[n - 1], ops[n - 1], ls[n]);
      OpCapped(ls[n - 1], ops[n - 1], ls[n]);
    }
  }

  // ---- Sealed ids ---------------------------------------------------------

  /** An answer for this id is sealed, or the id belongs to a wiped lifetime. */
  predicate Sealed(l: Ledger, id: RequestId) {
    id in l.terminal || (id in l.entries && l.entries[id].phase.Complete?)
  }

  lemma SealedStays(l: Ledger, op: Op, m: Ledger, id: RequestId)
    requires Linked(l) && Sealed(l, id) && StepsTo(l, op, m)
    ensures Sealed(m, id)
  {
    if op.Prune? || op.Lookup? || op.Reserve? || op.Finish? {
      PruneLinked(l, op.now);
      assert Sealed(Pruned(l, op.now), id);
    }
  }

  /** The completion takes effect: it finds the id spent under its own digest. */
  predicate TakesEffect(l: Ledger, op: Op, id: RequestId) {
    op.Finish? && op.id == id && id in l.spent && l.spent[id] == op.digest
  }

  lemma CompletionSeals(l: Ledger, op: Op, id: RequestId)
    requires Linked(l) && TakesEffect(l, op, id)
    ensures Sealed(Next(l, op), id)
  {
    PruneLinked(l, op.now);
  }

  predicate GrantsOwner(l: Ledger, op: Op, id: RequestId) {
    op.Reserve? && op.id == id && ReservationIn(Pruned(l, op.now), id, op.digest) == Owner
  }

  lemma SealedBlocks(l: Ledger, op: Op, id: RequestId)
    requires Linked(l) && Sealed(l, id)
    ensures !GrantsOwner(l, op, id)
  {
  }

  lemma {:induction false} SealedFrom(ls: seq<Ledger>, ops: seq<Op>, i: nat, n: nat, id: RequestId)
    requires Run(ls, ops) && i <= n < |ls| && Sealed(ls[i], id)
    ensures Sealed(ls[n], id)
  {
    if i < n {
      SealedFrom(ls, ops, i, n - 1, id);
      RunKeeps(ls, ops, n - 1);
      assert StepAt(ls, ops, n - 1);
      SealedStays(ls[n - 1], ops[n - 1], ls[n], id);
    }
  }

  /**
    Once a completion has taken effect on an id, and from a wipe on for every
    id spent before it, no later sequence of operations grants the id again.
   */
  lemma NeverReopened(ls: seq<Ledger>, ops: seq<Op>, i: nat, j: nat, id: RequestId)
    requires Run(ls, ops) && i < j < |ops|
    requires TakesEffect(ls[i], ops[i], id) || (ops[i].Clear? && id in ls[i].spent)
    ensures !GrantsOwner(ls[j], ops[j], id)
  {
    RunKeeps(ls, ops, i);
    assert StepAt(ls, ops, i);
    if TakesEffect(ls[i], ops[i], id) { CompletionSeals(ls[i], ops[i], id); }
    SealedFrom(ls, ops, i + 1, j, id);
    RunKeeps(ls, ops, j);
    SealedBlocks(ls[j], ops[j], id);
  }

  /** A granted id is granted again only if its own worker aborted it in between. */
  lemma {:induction false} GrantedOnceUnlessAborted(ls: seq<Ledger>, ops: seq<Op>, i: nat, j: nat, id: RequestId)
    requires Run(ls, ops) && i < j < |ops| && GrantsOwner(ls[i], ops[i], id) && GrantsOwner(ls[j], ops[j], id)
    ensures exists k :: i < k < j && AbortsId(ls[k], ops[k], id)
  {
    if forall k :: i < k < j ==> !AbortsId(ls[k], ops[k], id) {
      SpentUnlessAborted(ls, ops, i, j, id);
    }
  }

  lemma {:induction false} SpentUnlessAborted(ls: seq<Ledger>, ops: seq<Op>, i: nat, n: nat, id: RequestId)
    requires Run(ls, ops) && i < n < |ls| && GrantsOwner(ls[i], ops[i], id)
    requires forall k :: i < k < n ==> !AbortsId(ls[k], ops[k], id)
    ensures id in ls[n].spent
  {
    assert StepAt(ls, ops, n - 1);
    if i + 1 < n {
      SpentUnlessAborted(ls, ops, i, n - 1, id);
      SpentStays(ls[n - 1], ops[n - 1], ls[n], id);
    } else {
      GrantSpends(ls[i], ops[i], ls[n], id);
    }
  }

  lemma GrantSpends(l: Ledger, op: Op, m: Ledger, id: RequestId)
    requires StepsTo(l, op, m) && GrantsOwner(l, op, id)
    ensures id in m.spent
  {
  }

  predicate AbortsId(l: Ledger, op: Op, id: RequestId) {
    op.Abort? && op.id == id && CanAbort(l, id, op.digest)
  }

  lemma SpentStays(l: Ledger, op: Op, m: Ledger, id: RequestId)
    requires StepsTo(l, op, m) && id in l.spent && !AbortsId(l, op, id)
    ensures id in m.spent
  {
  }

  /** A cached answer is what some completion under the very same id and digest supplied. */
  lemma {:induction false} CachedAnswerIsGenuine(ls: seq<Ledger>, ops: seq<Op>, n: nat, id: RequestId, digest: Digest,
                                                 now: nat)
    requires Run(ls, ops) && n < |ls| && FoundIn(Pruned(ls[n], now), id, digest).Cached?
    ensures exists i :: 0 <= i < n && ops[i].Finish? && ops[i].id == id && ops[i].digest == digest
                     && ops[i].response == FoundIn(Pruned(ls[n], now), id, digest).response
  {
    var response := FoundIn(Pruned(ls[n], now), id, digest).response;
    assert StepAt(ls, ops, n - 1);
    var op := ops[n - 1];
    if !(op.Finish? && op.id == id && op.digest == digest && op.response == response) {
      assert id in ls[n - 1].entries && ls[n - 1].entries[id] == ls[n].entries[id];
      CachedAnswerIsGenuine(ls, ops, n - 1, id, digest, ls[n].entries[id].createdAt);
    }
  }

  // ---- What each request is answered --------------------------------------

  /** The receipt is still there at this reading: fresh, or held by a full ledger. */
  predicate Kept(l: Ledger, id: RequestId, now: nat) {
    id in l.entries && (|l.spent| >= MAX_SPENT_IDS || now < l.entries[id].createdAt + RECEIPT_TTL_MS)
  }

  predicate Knows(l: Ledger, id: RequestId, digest: Digest) {
    id in l.spent && l.spent[id] == digest
  }

  function KeptIds(l: Ledger, now: nat): set<RequestId> {
    set id | id in l.entries && Kept(l, id, now)
  }

  lemma PrunedIsKept(l: Ledger, now: nat)
    ensures Pruned(l, now).spent == l.spent && Pruned(l, now).entries.Keys == KeptIds(l, now)
    ensures forall id :: Kept(l, id, now) ==> Pruned(l, now).entries[id] == l.entries[id]
    ensures |Pruned(l, now).entries| == |KeptIds(l, now)|
  {
    assert |Pruned(l, now).entries| == |Pruned(l, now).entries.Keys|;
  }

  /** The answers of a lookup, each with its exact condition. */
  lemma LookupIff(l: Ledger, id: RequestId, digest: Digest, now: nat)
    requires Linked(l)
    ensures var found := FoundIn(Pruned(l, now), id, digest);
      && (found.Missing? <==> id !in l.spent)
      && (found.Mismatch? <==> id in l.spent && l.spent[id] != digest)
      && (found.Used? <==> Knows(l, id, digest) && !Kept(l, id, now))
      && (found.Waiting? <==> Knows(l, id, digest) && Kept(l, id, now) && l.entries[id].phase.InFlight?)
      && (found.Cached? <==> Knows(l, id, digest) && Kept(l, id, now) && l.entries[id].phase.Complete?)
      && (found.Cached? ==> l.entries[id].phase == Complete(found.response))
  {
    PrunedIsKept(l, now);
  }

  /** A grant needs an id never used, room among the used ids, and room for one more answer. */
  predicate Grantable(l: Ledger, id: RequestId, now: nat) {
    && id !in l.spent && |l.spent| < MAX_SPENT_IDS && |KeptIds(l, now)| < MAX_RECEIPTS
    && CostOf(|KeptIds(l, now)| + 1) <= MAX_RECEIPT_BYTES
  }

  /** The answers of a reservation, each with its exact condition. */
  lemma ReservationIff(l: Ledger, id: RequestId, digest: Digest, now: nat)
    requires Linked(l)
    ensures var answer := ReservationIn(Pruned(l, now), id, digest);
      && (answer.Owner? <==> Grantable(l, id, now))
      && (answer.Capacity? <==> id !in l.spent && !Grantable(l, id, now))
      && (answer.Conflict? <==> id in l.spent && l.spent[id] != digest)
      && (answer.Existing? <==> Knows(l, id, digest) && Kept(l, id, now))
      && (answer.AlreadySpent? <==> Knows(l, id, digest) && !Kept(l, id, now))
  {
    PrunedIsKept(l, now);
  }

  /** A completion acts on the id spent under its own digest, and on nothing else. */
  lemma CompletionEffect(l: Ledger, id: RequestId, digest: Digest, response: Response, now: nat)
    requires Linked(l)
    ensures var p, m := Pruned(l, now), Completed(l, id, digest, response, now);
      if !Knows(l, id, digest) then m == p
      else if Kept(l, id, now) then m == p.(entries := p.entries[id := Receipt(digest, now, Complete(response))])
      else m == p.(terminal := p.terminal + {id})
  {
    PrunedIsKept(l, now);
  }

  /** An abort reopens exactly an id of its own digest that no answer seals; any other one changes nothing. */
  lemma AbortIff(l: Ledger, id: RequestId, digest: Digest)
    requires Linked(l)
    ensures CanAbort(l, id, digest) <==> Knows(l, id, digest) && !Sealed(l, id)
    ensures var m := Aborted(l, id, digest);
      if Knows(l, id, digest) && !Sealed(l, id) then
        && id !in m.spent && id !in m.entries && m.terminal == l.terminal
        && (forall o :: o != id ==> (o in m.spent <==> o in l.spent) && (o in m.entries <==> o in l.entries))
        && (forall o :: o in m.spent ==> m.spent[o] == l.spent[o])
        && (forall o :: o in m.entries ==> m.entries[o] == l.entries[o])
      else m == l
  {
  }

  // ---- Answers are replayed -----------------------------------------------

  /** The operation reads the clock, if it does, before the receipt expires, and can neither replace nor drop it. */
  predicate Quiet(op: Op, id: RequestId, r: Receipt) {
    var until := r.createdAt + RECEIPT_TTL_MS;
    match op
    case Prune(now) => now < until
    case Lookup(_, _, now) => now < until
    case Reserve(_, _, now) => now < until
    case Finish(other, _, _, now) => other != id && now < until
    case Abort(other, _) => other != id || r.phase.Complete?
    case Clear => false
  }

  predicate HoldsReceipt(l: Ledger, id: RequestId, r: Receipt) {
    id in l.entries && l.entries[id] == r
  }

  lemma ReceiptStays(l: Ledger, op: Op, m: Ledger, id: RequestId, r: Receipt)
    requires StepsTo(l, op, m) && HoldsReceipt(l, id, r) && Quiet(op, id, r)
    ensures HoldsReceipt(m, id, r)
  {
  }

  lemma {:induction false} ReceiptHeld(ls: seq<Ledger>, ops: seq<Op>, m: nat, n: nat, id: RequestId, r: Receipt)
    requires Run(ls, ops) && m <= n < |ls| && HoldsReceipt(ls[m], id, r)
    requires forall k :: m <= k < n ==> Quiet(ops[k], id, r)
    ensures HoldsReceipt(ls[n], id, r)
  {
    if m < n {
      ReceiptHeld(ls, ops, m, n - 1, id, r);
      assert StepAt(ls, ops, n - 1);
      ReceiptStays(ls[n - 1], ops[n - 1], ls[n], id, r);
    }
  }

  /** A granted request waits for its worker: until it expires, retries are told so. */
  lemma GrantedIsAwaited(ls: seq<Ledger>, ops: seq<Op>, i: nat, n: nat, id: RequestId, now: nat)
    requires Run(ls, ops) && i < n < |ls| && GrantsOwner(ls[i], ops[i], id)
    requires forall k :: i < k < n ==> Quiet(ops[k], id, Receipt(ops[i].digest, ops[i].now, InFlight))
    requires now < ops[i].now + RECEIPT_TTL_MS
    ensures FoundIn(Pruned(ls[n], now), id, ops[i].digest) == Waiting
    ensures ReservationIn(Pruned(ls[n], now), id, ops[i].digest) == Existing
  {
    assert StepAt(ls, ops, i);
    ReceiptHeld(ls, ops, i + 1, n, id, Receipt(ops[i].digest, ops[i].now, InFlight));
  }

  /**
    A completion that finds its receipt is answered from the cache: for one
    receipt period every later lookup of its id and digest returns exactly its
    response, whatever else happens, short of a wipe or another completion of
    the id.
   */
  lemma CompletedIsReplayed(ls: seq<Ledger>, ops: seq<Op>, j: nat, n: nat, id: RequestId, now: nat)
    requires Run(ls, ops) && j < n < |ls| && ops[j].Finish? && ops[j].id == id
    requires Knows(ls[j], id, ops[j].digest) && Kept(ls[j], id, ops[j].now)
    requires forall k :: j < k < n ==> Quiet(ops[k], id, Receipt(ops[j].digest, ops[j].now, Complete(ops[j].response)))
    requires now < ops[j].now + RECEIPT_TTL_MS
    ensures FoundIn(Pruned(ls[n], now), id, ops[j].digest) == Cached(ops[j].response)
  {
    RunKeeps(ls, ops, j);
    assert StepAt(ls, ops, j);
    CompletionEffect(ls[j], id, ops[j].digest, ops[j].response, ops[j].now);
    ReceiptHeld(ls, ops, j + 1, n, id, Receipt(ops[j].digest, ops[j].now, Complete(ops[j].response)));
  }

  // ---- The store ----------------------------------------------------------

  lemma DroppedNone(l: Ledger)
    ensures Dropped(l, {}) == l
  {
    assert Minus(l.entries, {}) == l.entries;
  }

  lemma WithoutMore(l: Ledger, gone: set<RequestId>, id: RequestId)
    requires id in l.entries && id !in gone
    ensures var m, n := Without(l, gone), Without(l, gone + {id});
      && id in m.entries && m.entries[id] == l.entries[id] && n.entries == Minus(m.entries, {id}) && n.spent == m.spent
      && n.terminal == if l.entries[id].phase.Complete? then m.terminal + {id} else m.terminal
  {
  }

  lemma Justify(l: Ledger, op: Op)
    requires Linked(l) && Capped(l)
    ensures Linked(Next(l, op)) && Capped(Next(l, op))
  {
    OpLinked(l, op, Next(l, op));
    OpCapped(l, op, Next(l, op));
  }

  class BootstrapReceiptStore {
    var entries: Entries
    var spent: map<RequestId, Digest>
    var terminalSpent: set<RequestId>
    var usedBytes: nat

    ghost function View(): Ledger
      reads this
    {
      Ledger(entries, spent, terminalSpent)
    }

    /** The byte counter is the number of cached answers times their size. */
    ghost predicate Valid()
      reads this
    {
      Linked(View()) && Capped(View()) && usedBytes == CostOf(|entries|)
    }

    constructor ()
      ensures Valid() && View() == Start
    {
      entries, spent, terminalSpent, usedBytes := map[], map[], {}, 0;
    }

    method PruneAt(now: nat)
      requires Valid()
      modifies this
      ensures Valid() && View() == Pruned(old(View()), now)
    {
      PruneLinked(View(), now);
      OpCapped(View(), Prune(now), Pruned(View(), now));
      DropAll(ExpiredIds(entries, now));
    }

    method DropAll(ids: set<RequestId>)
      requires Valid() && ids <= entries.Keys
      modifies this
      ensures View() == Dropped(old(View()), ids) && usedBytes == CostOf(|entries|)
    {
      ghost var start := View();
      DroppedNone(start);
      var todo := ids;
      while todo != {}
        invariant todo <= ids && View() == Dropped(start, ids - todo) && usedBytes == CostOf(|entries|)
      {
        var id :| id in todo;
        ExpireOne(id, start, ids - todo);
        assert (ids - todo) + {id} == ids - (todo - {id});
        todo := todo - {id};
      }
      assert ids - todo == ids;
    }

    /** One iteration of the loop; the ledger keeps the id and, for a sealed answer, its mark. */
    method ExpireOne(id: RequestId, ghost start: Ledger, ghost gone: set<RequestId>)
      requires Linked(start) && id in start.entries && id !in gone
      requires View() == Dropped(start, gone) && usedBytes == CostOf(|entries|)
      modifies this
      ensures View() == Dropped(start, gone + {id}) && usedBytes == CostOf(|entries|)
    {
      if |spent| >= MAX_SPENT_IDS { return; }
      WithoutMore(start, gone, id);
      SizeDrop(entries, id);
      var receipt := entries[id];
      entries := Minus(entries, {id});
      usedBytes := usedBytes - RESPONSE_BYTES;
      if receipt.phase.Complete? { terminalSpent := terminalSpent + {id}; }
      spent := spent[id := receipt.digest];
      assert spent == start.spent;
    }

    method LookupAt(id: RequestId, digest: Digest, now: nat) returns (found: Found)
      requires Valid()
      modifies this
      ensures Valid() && View() == Pruned(old(View()), now) && found == FoundIn(View(), id, digest)
    {
      PruneAt(now);
      if id !in entries {
        if id !in spent { return Missing; }
        return if spent[id] == digest then Used else Mismatch;
      }
      var receipt := entries[id];
      if receipt.digest != digest { return Mismatch; }
      match receipt.phase {
        case InFlight => return Waiting;
        case Complete(response) => return Cached(response);
      }
    }

    method ReserveAt(id: RequestId, digest: Digest, now: nat) returns (outcome: Reservation)
      requires Valid()
      modifies this
      ensures Valid() && View() == Reserved(old(View()), id, digest, now)
      ensures outcome == ReservationIn(Pruned(old(View()), now), id, digest)
    {
      PruneAt(now);
      Justify(old(View()), Reserve(id, digest, now));
      if id in entries { return if entries[id].digest == digest then Existing else Conflict; }
      if id in spent { return if spent[id] == digest then AlreadySpent else Conflict; }
      if |spent| >= MAX_SPENT_IDS { return Capacity; }
      var next := usedBytes + RESPONSE_BYTES;
      if |entries| >= MAX_RECEIPTS || next > MAX_RECEIPT_BYTES { return Capacity; }
      SizeAdd(entries, id, Receipt(digest, now, InFlight));
      spent := spent[id := digest];
      entries := entries[id := Receipt(digest, now, InFlight)];
      usedBytes := next;
      return Owner;
    }

    method CompleteAt(id: RequestId, digest: Digest, response: Response, now: nat)
      requires Valid()
      modifies this
      ensures Valid() && View() == Completed(old(View()), id, digest, response, now)
    {
      PruneAt(now);
      Justify(old(View()), Finish(id, digest, response, now));
      if id !in spent || spent[id] != digest { return; }
      if id !in entries {
        terminalSpent := terminalSpent + {id};
        return;
      }
      if entries[id].digest != digest { return; }
      SizeAdd(entries, id, Receipt(digest, now, Complete(response)));
      entries := entries[id := Receipt(digest, now, Complete(response))];
    }

    method AbortRequest(id: RequestId, digest: Digest)
      requires Valid()
      modifies this
      ensures Valid() && View() == Aborted(old(View()), id, digest)
    {
      Justify(View(), Abort(id, digest));
      if id !in spent || spent[id] != digest { return; }
      var unsealed := id in entries && entries[id].phase.InFlight?;
      var expiredUnsealed := id !in entries && id !in terminalSpent;
      if !unsealed && !expiredUnsealed { return; }
      spent := Minus(spent, {id});
      if id in entries {
        SizeDrop(entries, id);
        entries := Minus(entries, {id});
        usedBytes := usedBytes - RESPONSE_BYTES;
      } else {
        assert Minus(entries, {id}) == entries;
      }
    }

    method ClearAll()
      requires Valid()
      modifies this
      ensures Valid() && View() == Cleared(old(View()))
    {
      terminalSpent := terminalSpent + spent.Keys;
      entries := map[];
      usedBytes := 0;
    }
  }
}
