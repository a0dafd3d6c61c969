/**
  The outbound byte budget: one global counter and one per client, updated by
  compare-and-swap loops of any number of tasks. Every atomic access of
  `reserve_outbound_bytes` and `release_client_outbound_bytes` is one step.
 */
module OutboundBudget {
  import opened Basics
  import opened Totals
  import opened Maps

  type Client = nat
  type Task = nat

  const GLOBAL_OUTBOUND_BYTES: nat := 64 * 1024 * 1024

  /** Where a task stands between two of its atomic accesses. */
  datatype Phase =
    | Idle
    | TryingLocal(client: Client, bytes: nat, limit: nat, seen: nat)
    | LocalTaken(client: Client, bytes: nat)
    | TryingGlobal(client: Client, bytes: nat, seen: nat)
    | Undoing(client: Client, bytes: nat)
    | Holding(client: Client, bytes: nat)
    | HalfReleased(client: Client, bytes: nat)

  datatype World = World(global: nat, locals: map<Client, nat>, tasks: map<Task, Phase>)

  const Start := World(0, map[], map[])

  function LocalOf(w: World, c: Client): nat {
    if c in w.locals then w.locals[c] else 0
  }

  function PhaseOf(w: World, t: Task): Phase {
    if t in w.tasks then w.tasks[t] else Idle
  }

  /** `fetch_sub` on a 64-bit word. */
  function WrappingSub(a: nat, b: nat): nat {
    if b <= a then a - b else SatSub(a + U64_MAX + 1, b)
  }

  // ---- The atomic steps ---------------------------------------------------

  datatype Step =
    | LoadLocal(task: Task, client: Client, size: nat, limit: nat)
    | SwapLocal(task: Task, spurious: bool)
    | LoadGlobal(task: Task)
    | SwapGlobal(task: Task, spurious: bool)
    | UndoLocal(task: Task)
    | ReleaseGlobal(task: Task)
    | ReleaseLocal(task: Task)

  predicate Enabled(w: World, s: Step) {
    var p := PhaseOf(w, s.task);
    match s
    case LoadLocal(_, _, _, limit) => p.Idle? && limit <= U64_MAX
    case SwapLocal(_, _) => p.TryingLocal?
    case LoadGlobal(_) => p.LocalTaken?
    case SwapGlobal(_, _) => p.TryingGlobal?
    case UndoLocal(_) => p.Undoing?
    case ReleaseGlobal(_) => p.Holding?
    case ReleaseLocal(_) => p.HalfReleased?
  }

  function Move(w: World, t: Task, p: Phase): World {
    w.(tasks := w.tasks[t := p])
  }

  function SetLocal(w: World, c: Client, v: nat): World {
    w.(locals := w.locals[c := v])
  }

  function Next(w: World, s: Step): World
    requires Enabled(w, s)
  {
    var t, p := s.task, PhaseOf(w, s.task);
    match s
    case LoadLocal(_, c, size, limit) =>
      Move(w, t, TryingLocal(c, if size == 0 then 1 else size, limit, LocalOf(w, c)))
    case SwapLocal(_, spurious) =>
      if p.seen + p.bytes > U64_MAX || p.seen + p.bytes > p.limit then Move(w, t, Idle)
      else if spurious || LocalOf(w, p.client) != p.seen then
        Move(w, t, TryingLocal(p.client, p.bytes, p.limit, LocalOf(w, p.client)))
      else Move(SetLocal(w, p.client, p.seen + p.bytes), t, LocalTaken(p.client, p.bytes))
    case LoadGlobal(_) => Move(w, t, TryingGlobal(p.client, p.bytes, w.global))
    case SwapGlobal(_, spurious) =>
      if p.seen + p.bytes > U64_MAX || p.seen + p.bytes > GLOBAL_OUTBOUND_BYTES then
        Move(w, t, Undoing(p.client, p.bytes))
      else if spurious || w.global != p.seen then Move(w, t, TryingGlobal(p.client, p.bytes, w.global))
      else Move(w.(global := p.seen + p.bytes), t, Holding(p.client, p.bytes))
    case UndoLocal(_) => Move(SetLocal(w, p.client, WrappingSub(LocalOf(w, p.client), p.bytes)), t, Idle)
    case ReleaseGlobal(_) => Move(w.(global := WrappingSub(w.global, p.bytes)), t, HalfReleased(p.client, p.bytes))
    case ReleaseLocal(_) => Move(SetLocal(w, p.client, WrappingSub(LocalOf(w, p.client), p.bytes)), t, Idle)
  }

  // ---- What the counters count --------------------------------------------

  /** What a task contributes to the global counter. */
  function GlobalShare(): Phase -> nat {
    (p: Phase) => if p.Holding? then p.bytes else 0
  }

  /** What a task contributes to the counter of this client. */
  function LocalShare(c: Client): Phase -> nat {
    (p: Phase) => if !p.Idle? && !p.TryingLocal? && p.client == c then p.bytes else 0
  }

  ghost predicate LocalExact(w: World, cap: Client -> nat, c: Client) {
    LocalOf(w, c) == Total(w.tasks, LocalShare(c)) <= cap(c)
  }

  ghost predicate Exact(w: World, cap: Client -> nat) {
    && w.global == Total(w.tasks, GlobalShare()) <= GLOBAL_OUTBOUND_BYTES
    && (forall c :: LocalExact(w, cap, c))
    && (forall t :: t in w.tasks && w.tasks[t].TryingLocal? ==> w.tasks[t].limit <= cap(w.tasks[t].client))
  }

  /** Every reservation names a limit within the cap of its client's queue. */
  predicate WithinCap(s: Step, cap: Client -> nat) {
    s.LoadLocal? ==> s.limit <= cap(s.client)
  }

  lemma MoveShares(w: World, t: Task, p: Phase, share: Phase -> nat)
    requires share(Idle) == 0
    ensures Total(w.tasks[t := p], share) + share(PhaseOf(w, t)) == Total(w.tasks, share) + share(p)
  {
    TotalUpdate(w.tasks, share, t, p);
  }

  /** No subtraction wraps around: the counter holds at least the bytes that are taken off. */
  lemma NoUnderflow(w: World, s: Step, cap: Client -> nat)
    requires Exact(w, cap) && Enabled(w, s)
    ensures var p := PhaseOf(w, s.task);
      && (s.UndoLocal? || s.ReleaseLocal? ==> p.bytes <= LocalOf(w, p.client))
      && (s.ReleaseGlobal? ==> p.bytes <= w.global)
  {
    var p := PhaseOf(w, s.task);
    if s.UndoLocal? || s.ReleaseLocal? {
      assert LocalExact(w, cap, p.client);
      TotalRemove(w.tasks, LocalShare(p.client), s.task);
    } else if s.ReleaseGlobal? {
      TotalRemove(w.tasks, GlobalShare(), s.task);
    }
  }

  /** A client's counter moves by what the task's share of it moves, and never above the task's limit. */
  lemma LocalMoves(w: World, s: Step, c: Client)
    requires Enabled(w, s)
    requires s.UndoLocal? || s.ReleaseLocal? ==> PhaseOf(w, s.task).bytes <= LocalOf(w, PhaseOf(w, s.task).client)
    ensures var v := Next(w, s);
      && v.tasks == w.tasks[s.task := v.tasks[s.task]]
      && LocalOf(v, c) + LocalShare(c)(PhaseOf(w, s.task)) == LocalOf(w, c) + LocalShare(c)(v.tasks[s.task])
      && (LocalOf(v, c) <= LocalOf(w, c)
          || (s.SwapLocal? && PhaseOf(w, s.task).client == c && LocalOf(v, c) <= PhaseOf(w, s.task).limit))
  {
  }

  lemma LocalStays(w: World, s: Step, cap: Client -> nat, c: Client)
    requires Exact(w, cap) && Enabled(w, s)
    ensures LocalExact(Next(w, s), cap, c)
  {
    var t, v := s.task, Next(w, s);
    NoUnderflow(w, s, cap);
    assert LocalExact(w, cap, c);
    LocalMoves(w, s, c);
    MoveShares(w, t, v.tasks[t], LocalShare(c));
  }

  lemma StepExact(w: World, s: Step, cap: Client -> nat)
    requires Exact(w, cap) && Enabled(w, s) && WithinCap(s, cap)
    ensures Exact(Next(w, s), cap)
  {
    var t, v := s.task, Next(w, s);
    NoUnderflow(w, s, cap);
    MoveShares(w, t, v.tasks[t], GlobalShare());
    forall c ensures LocalExact(v, cap, c) {
      LocalStays(w, s, cap, c);
    }
  }

  // ---- Every interleaving -------------------------------------------------

  ghost predicate Run(ws: seq<World>, steps: seq<Step>, cap: Client -> nat) {
    |ws| == |steps| + 1 && ws[0] == Start && forall i :: 0 <= i < |steps| ==> StepAt(ws, steps, i, cap)
  }

  ghost predicate StepAt(ws: seq<World>, steps: seq<Step>, i: nat, cap: Client -> nat)
    requires i < |steps| && i + 1 < |ws|
  {
    Enabled(ws[i], steps[i]) && WithinCap(steps[i], cap) && ws[i + 1] == Next(ws[i], steps[i])
  }

  /**
    Under every interleaving the global counter is the sum of the bytes fully
    held and within its limit, each local counter is the sum of its client's
    reservations and within its cap.
   */
  lemma {:induction false} AlwaysExact(ws: seq<World>, steps: seq<Step>, n: nat, cap: Client -> nat)
    requires Run(ws, steps, cap) && n < |ws|
    ensures Exact(ws[n], cap)
  {
    if n == 0 {
      forall c ensures LocalExact(Start, cap, c) {
      }
    } else {
      AlwaysExact(ws, steps, n - 1, cap);
      assert StepAt(ws, steps, n - 1, cap);
      StepExact(ws[n - 1], steps[n - 1], cap);
    }
  }

  ghost predicate Quiescent(w: World) {
    forall t :: t in w.tasks ==> w.tasks[t].Idle? || w.tasks[t].TryingLocal?
  }

  lemma {:induction false} NoShares(tasks: map<Task, Phase>, share: Phase -> nat)
    requires forall t :: t in tasks ==> share(tasks[t]) == 0
    ensures Total(tasks, share) == 0
    decreases |tasks|
  {
    if tasks != map[] {
      var t :| t in tasks;
      TotalRemove(tasks, share, t);
      assert |tasks - {t}| < |tasks|;
      NoShares(tasks - {t}, share);
    }
  }

  /** Failed and finished reservations leave no residue: with nothing held all counters are zero. */
  lemma NoResidue(ws: seq<World>, steps: seq<Step>, n: nat, cap: Client -> nat, c: Client)
    requires Run(ws, steps, cap) && n < |ws| && Quiescent(ws[n])
    ensures ws[n].global == 0 && LocalOf(ws[n], c) == 0
  {
    AlwaysExact(ws, steps, n, cap);
    NoShares(ws[n].tasks, GlobalShare());
    NoShares(ws[n].tasks, LocalShare(c));
    assert LocalExact(ws[n], cap, c);
  }

  /** A reservation that fails, at either counter, contributes nothing once its task is idle again. */
  lemma FailureIsNeutral(w: World, s: Step, cap: Client -> nat)
    requires Exact(w, cap) && Enabled(w, s) && Next(w, s).tasks[s.task].Idle?
    ensures var v := Next(w, s);
      && v.global == w.global
      && (s.SwapLocal? ==> v.locals == w.locals)
      && (s.UndoLocal? ==> LocalOf(v, PhaseOf(w, s.task).client) + PhaseOf(w, s.task).bytes
                           == LocalOf(w, PhaseOf(w, s.task).client))
      && (forall c :: LocalOf(v, c) == Total(Minus(w.tasks, {s.task}), LocalShare(c)))
  {
    NoUnderflow(w, s, cap);
    var v := Next(w, s);
    forall c ensures LocalOf(v, c) == Total(Minus(w.tasks, {s.task}), LocalShare(c)) {
      LocalStays(w, s, cap, c);
      TotalUpdate(w.tasks, LocalShare(c), s.task, Idle);
      assert Minus(w.tasks, {s.task}) == w.tasks - {s.task};
    }
  }

  // ---- One reservation by itself ------------------------------------------

  /** The steps of a reservation, up to its success or to the undoing of its local part. */
  function Reserving(t: Task, c: Client, size: nat, limit: nat): seq<Step> {
    [LoadLocal(t, c, size, limit), SwapLocal(t, false), LoadGlobal(t), SwapGlobal(t, false), UndoLocal(t)]
  }

  /** The world after as many of these steps as the reservation takes. */
  function Performed(w: World, steps: seq<Step>): World
    decreases |steps|
  {
    if steps == [] || !Enabled(w, steps[0]) then w else Performed(Next(w, steps[0]), steps[1..])
  }

  lemma Unrolled(w: World, steps: seq<Step>)
    requires steps != []
    ensures Performed(w, steps) == if Enabled(w, steps[0]) then Performed(Next(w, steps[0]), steps[1..]) else w
  {
  }

  /** The second half, once the client's counter was raised: the global one is raised or the first half undone. */
  lemma GlobalHalf(w: World, t: Task, c: Client, bytes: nat)
    requires PhaseOf(w, t) == LocalTaken(c, bytes) && bytes <= LocalOf(w, c)
    requires LocalOf(w, c) <= U64_MAX && w.global <= GLOBAL_OUTBOUND_BYTES
    ensures var fits := w.global + bytes <= GLOBAL_OUTBOUND_BYTES;
      var v := Performed(w, [LoadGlobal(t), SwapGlobal(t, false), UndoLocal(t)]);
      if fits then PhaseOf(v, t) == Holding(c, bytes) && v.global == w.global + bytes && LocalOf(v, c) == LocalOf(w, c)
      else PhaseOf(v, t).Idle? && v.global == w.global && LocalOf(v, c) == LocalOf(w, c) - bytes
  {
    var w1 := Next(w, LoadGlobal(t));
    var w2 := Next(w1, SwapGlobal(t, false));
    Unrolled(w, [LoadGlobal(t), SwapGlobal(t, false), UndoLocal(t)]);
    Unrolled(w1, [SwapGlobal(t, false), UndoLocal(t)]);
    Unrolled(w2, [UndoLocal(t)]);
  }

  /**
    Without interference a reservation succeeds exactly when its bytes, at least
    one, fit both limits; then it holds them on both counters, and otherwise the
    counters are untouched.
   */
  lemma SoloReservation(w: World, cap: Client -> nat, t: Task, c: Client, size: nat, limit: nat)
    requires Exact(w, cap) && PhaseOf(w, t).Idle? && limit <= U64_MAX
    ensures var bytes := if size == 0 then 1 else size;
      var fits := LocalOf(w, c) + bytes <= limit && w.global + bytes <= GLOBAL_OUTBOUND_BYTES;
      var v := Performed(w, Reserving(t, c, size, limit));
      if fits then
        PhaseOf(v, t) == Holding(c, bytes) && v.global == w.global + bytes && LocalOf(v, c) == LocalOf(w, c) + bytes
      else PhaseOf(v, t).Idle? && v.global == w.global && LocalOf(v, c) == LocalOf(w, c)
  {
    var bytes := if size == 0 then 1 else size;
    var w1 := Next(w, LoadLocal(t, c, size, limit));
    var w2 := Next(w1, SwapLocal(t, false));
    Unrolled(w, Reserving(t, c, size, limit));
    Unrolled(w1, [SwapLocal(t, false), LoadGlobal(t), SwapGlobal(t, false), UndoLocal(t)]);
    if LocalOf(w, c) + bytes <= limit {
      GlobalHalf(w2, t, c, bytes);
    } else {
      Unrolled(w2, [LoadGlobal(t), SwapGlobal(t, false), UndoLocal(t)]);
    }
  }
}
