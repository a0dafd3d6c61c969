/**
  The attachment receipts together with the epoch that a wipe advances. The
  wipe advances the epoch first, without the receipts lock, and clears the
  receipts later, under it. A handler checks under the lock that its generation
  is still the epoch and then reserves under the same lock, so a wipe may
  advance the epoch between the two but cannot clear between them.
 */
module AttachmentEpochs {
  import opened Basics
  import opened AttachmentReceipts

  const EPOCHS: nat := 0x1_0000_0000_0000_0000

  /** `bumps` counts the advances; the 64-bit epoch is what is left of it. `checked` is the handler in the lock. */
  datatype World = World(ledger: Ledger, bumps: nat, checked: Option<nat>)

  function Epoch(w: World): nat {
    w.bumps % EPOCHS
  }

  datatype Step =
    | Bump
    | Check(generation: nat)
    | Insert(reserve: Op)
    | Act(op: Op)

  const Fresh := World(Start, 0, None)

  ghost predicate WorldStep(w: World, step: Step, v: World) {
    match step
    case Bump => v == w.(bumps := w.bumps + 1)
    case Check(generation) =>
      w.checked.None? && v == if generation == Epoch(w) then w.(checked := Some(generation)) else w
    case Insert(op) =>
      && op.Reserve? && w.checked == Some(op.generation)
      && StepsTo(w.ledger, op, v.ledger) && v == World(v.ledger, w.bumps, None)
    case Act(op) =>
      && !op.Reserve? && w.checked.None?
      && StepsTo(w.ledger, op, v.ledger) && v == w.(ledger := v.ledger)
  }

  ghost predicate WorldRun(ws: seq<World>, steps: seq<Step>) {
    |ws| == |steps| + 1 && ws[0] == Fresh && forall i :: 0 <= i < |steps| ==> WorldStepAt(ws, steps, i)
  }

  ghost predicate WorldStepAt(ws: seq<World>, steps: seq<Step>, i: nat)
    requires i < |steps| && i + 1 < |ws|
  {
    WorldStep(ws[i], steps[i], ws[i + 1])
  }

  /** What happens to the receipts is a run of the receipt store. */
  lemma {:induction false} LedgerRuns(ws: seq<World>, steps: seq<Step>, n: nat) returns (ls: seq<Ledger>, ops: seq<Op>)
    requires WorldRun(ws, steps) && n < |ws|
    ensures Run(ls, ops) && ls[|ops|] == ws[n].ledger
  {
    if n == 0 {
      ls, ops := [Start], [];
    } else {
      ls, ops := LedgerRuns(ws, steps, n - 1);
      assert WorldStepAt(ws, steps, n - 1);
      var step := steps[n - 1];
      if step.Insert? || step.Act? {
        var op := if step.Insert? then step.reserve else step.op;
        var more, longer := ls + [ws[n].ledger], ops + [op];
        forall i | 0 <= i < |longer| ensures StepAt(more, longer, i) {
          if i < |ops| { assert StepAt(ls, ops, i); }
        }
        ls, ops := more, longer;
      }
    }
  }

  /** The store's links and bounds hold at every moment of a run with wipes. */
  lemma WorldKeeps(ws: seq<World>, steps: seq<Step>, n: nat)
    requires WorldRun(ws, steps) && n < |ws|
    ensures Linked(ws[n].ledger) && Capped(ws[n].ledger)
  {
    var ls, ops := LedgerRuns(ws, steps, n);
    RunKeeps(ls, ops, |ops|);
    assert KeptAt(ls, |ops|);
  }

  // ---- One owner per handle between wipes ---------------------------------

  predicate Grants(w: World, step: Step, key: Key) {
    step.Insert? && GrantsOwner(w.ledger, step.reserve, key)
  }

  lemma {:induction false} TakenUntilCleared(ws: seq<World>, steps: seq<Step>, i: nat, n: nat, key: Key)
    requires WorldRun(ws, steps) && i < n < |ws| && Grants(ws[i], steps[i], key)
    requires forall k :: i < k < n ==> steps[k] != Act(Clear)
    ensures Taken(ws[n].ledger, key)
  {
    assert WorldStepAt(ws, steps, n - 1);
    if i + 1 < n {
      TakenUntilCleared(ws, steps, i, n - 1, key);
      match steps[n - 1]
      case Insert(op) => TakenStays(ws[n - 1].ledger, op, ws[n].ledger, key);
      case Act(op) => TakenStays(ws[n - 1].ledger, op, ws[n].ledger, key);
      case _ =>
    }
  }

  /** Until the receipts are cleared no handle is granted twice, however the epoch moves meanwhile. */
  lemma GrantedOnceUntilCleared(ws: seq<World>, steps: seq<Step>, i: nat, j: nat, key: Key)
    requires WorldRun(ws, steps) && i < j < |steps| && Grants(ws[i], steps[i], key)
    requires forall k :: i < k < j ==> steps[k] != Act(Clear)
    ensures !Grants(ws[j], steps[j], key)
  {
    TakenUntilCleared(ws, steps, i, j, key);
    if steps[j].Insert? { TakenBlocks(ws[j].ledger, steps[j].reserve, key); }
  }

  // ---- Where generations come from ----------------------------------------

  /** The generation is what the epoch was at some advance since `low`. */
  ghost predicate Since(generation: nat, low: nat, high: nat) {
    exists e: nat :: Stamped(generation, e) && low <= e <= high
  }

  predicate Stamped(generation: nat, e: nat) {
    generation == e % EPOCHS
  }

  /** Every receipt, and the handler in the lock, was checked against the epoch since `low`. */
  ghost predicate AllSince(w: World, low: nat) {
    && low <= w.bumps
    && (forall k :: k in w.ledger.entries ==> Since(w.ledger.entries[k].generation, low, w.bumps))
    && (w.checked.Some? ==> Since(w.checked.value, low, w.bumps))
  }

  lemma SinceGrows(generation: nat, low: nat, high: nat, higher: nat)
    requires Since(generation, low, high) && high <= higher
    ensures Since(generation, low, higher)
  {
  }

  /** Whatever the ledger does, a receipt's generation is old or the reserved one. */
  lemma GenerationsMove(l: Ledger, op: Op, m: Ledger, key: Key)
    requires StepsTo(l, op, m) && key in m.entries
    ensures (key in l.entries && m.entries[key].generation == l.entries[key].generation)
         || (op.Reserve? && m.entries[key].generation == op.generation)
    ensures !op.Clear?
  {
  }

  lemma StepStamps(w: World, step: Step, v: World, low: nat)
    requires WorldStep(w, step, v) && AllSince(w, low)
    ensures AllSince(v, low)
  {
    forall k | k in v.ledger.entries ensures Since(v.ledger.entries[k].generation, low, v.bumps) {
      match step
      case Bump => SinceGrows(w.ledger.entries[k].generation, low, w.bumps, v.bumps);
      case Check(_) =>
      case Insert(op) => GenerationsMove(w.ledger, op, v.ledger, k);
      case Act(op) => GenerationsMove(w.ledger, op, v.ledger, k);
    }
    if step.Bump? && w.checked.Some? {
      SinceGrows(w.checked.value, low, w.bumps, v.bumps);
    } else if step.Check? && v.checked.Some? {
      assert Stamped(v.checked.value, w.bumps);
    }
  }

  /** Clearing needs the lock, so nothing checked before it is reserved after it. */
  lemma {:induction false} StampedSinceClear(ws: seq<World>, steps: seq<Step>, c: nat, n: nat)
    requires WorldRun(ws, steps) && c < n < |ws| && steps[c] == Act(Clear)
    ensures AllSince(ws[n], ws[c].bumps)
  {
    assert WorldStepAt(ws, steps, n - 1);
    if c < n - 1 {
      StampedSinceClear(ws, steps, c, n - 1);
      StepStamps(ws[n - 1], steps[n - 1], ws[n], ws[c].bumps);
    }
  }

  lemma {:induction false} BumpsGrow(ws: seq<World>, steps: seq<Step>, i: nat, n: nat)
    requires WorldRun(ws, steps) && i <= n < |ws|
    ensures ws[i].bumps <= ws[n].bumps
  {
    if i < n {
      BumpsGrow(ws, steps, i, n - 1);
      assert WorldStepAt(ws, steps, n - 1);
    }
  }

  lemma DistinctEpochs(a: nat, e: nat)
    requires a < e < a + EPOCHS
    ensures a % EPOCHS != e % EPOCHS
  {
  }

  /**
    After a wipe has advanced the epoch and cleared the receipts, no receipt
    carries a generation that was read before, unless 2^64 advances went by.
   */
  lemma NoOldGeneration(ws: seq<World>, steps: seq<Step>, i: nat, b: nat, c: nat, n: nat, key: Key)
    requires WorldRun(ws, steps) && i <= b < c < n < |ws| && steps[b] == Bump && steps[c] == Act(Clear)
    requires ws[n].bumps < ws[i].bumps + EPOCHS && key in ws[n].ledger.entries
    ensures ws[n].ledger.entries[key].generation != Epoch(ws[i])
  {
    BumpsGrow(ws, steps, i, b);
    assert WorldStepAt(ws, steps, b);
    BumpsGrow(ws, steps, b + 1, c);
    StampedSinceClear(ws, steps, c, n);
    var e: nat :| Stamped(ws[n].ledger.entries[key].generation, e) && ws[c].bumps <= e <= ws[n].bumps;
    DistinctEpochs(ws[i].bumps, e);
  }

  /**
    A worker whose request read the epoch before a wipe and who completes after
    the wipe changes no receipt: its completion acts only as the pruning it
    begins with. A retry of such a request finds no answer.
   */
  lemma LateCompletionIsIgnored(ws: seq<World>, steps: seq<Step>, i: nat, b: nat, c: nat, n: nat)
    requires WorldRun(ws, steps) && i <= b < c < n < |steps| && steps[b] == Bump && steps[c] == Act(Clear)
    requires ws[n].bumps < ws[i].bumps + EPOCHS
    ensures steps[n].Act? && steps[n].op.Finish? && steps[n].op.generation == Epoch(ws[i]) ==>
            ws[n + 1].ledger == Moved(ws[n].ledger, steps[n].op.moved)
    ensures steps[n].Act? && steps[n].op.Lookup? && steps[n].op.generation == Epoch(ws[i]) ==>
            FoundIn(ws[n + 1].ledger, steps[n].op.key, steps[n].op.digest, steps[n].op.generation, steps[n].op.now)
              in {Missing, Stale, Used}
  {
    assert WorldStepAt(ws, steps, n);
    if steps[n].Act? && !steps[n].op.Clear? && steps[n].op.key in ws[n].ledger.entries {
      NoOldGeneration(ws, steps, i, b, c, n, steps[n].op.key);
      if steps[n].op.Finish? && steps[n].op.generation == Epoch(ws[i]) {
        OtherGenerationIgnored(ws[n].ledger, steps[n].op);
      }
    }
  }
}
