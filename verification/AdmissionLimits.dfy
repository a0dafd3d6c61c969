/**
  Where lease coverage ends: two families of runs from the empty relay on which
  a queued prekey frame loses its lease. Together with
  `AdmissionRuns.TimelyRunsAgree` they show that both of its conditions on an
  admission are needed.
 */
module AdmissionLimits {
  import opened Basics
  import opened Totals
  import opened PendingQueues
  import opened Admission
  import opened Agreement
  import opened AdmissionRuns
  import RevisionWindow

  function Stroke(n: nat): (name: Name)
    ensures |name| == n
  {
    seq(n, _ => 'p')
  }

  const Alice: Name := Stroke(1)
  const Bob: Name := Stroke(2)
  const Chat: Name := Stroke(3)
  const Note: Name := Stroke(4)

  function Pool(): (pool: seq<Name>)
    ensures |pool| == PREKEY_POOL_SIZE && forall i :: 0 <= i < |pool| ==> |pool[i]| == i + 1
  {
    seq(PREKEY_POOL_SIZE, i requires 0 <= i < PREKEY_POOL_SIZE => Stroke(i + 1))
  }

  function Bundle(): (id: Identity)
    ensures Canonical(id)
  {
    var id := Identity(7, Pool(), 9);
    assert forall i, j :: 0 <= i < j < |id.pool| ==> |id.pool[i]| != |id.pool[j]|;
    id
  }

  function AliceWith(w: RevisionWindow.Window): Account {
    Account(Alice, Bundle(), 0, Pool()[0], w)
  }

  function BobAccount(): Account {
    Account(Bob, Bundle(), 0, Pool()[0], RevisionWindow.Initial)
  }

  function AccountsWith(w: RevisionWindow.Window): Accounts {
    map[1 := AliceWith(w), 2 := BobAccount()]
  }

  function Frame0(): Frame {
    Frame(Chat, Note, Alice, Pool()[0], true, 100)
  }

  const Box := PendingKey(Chat, Bob)

  function Held(): Leases {
    map[LeaseKey(2, Pool()[0]) := Lease(Chat, Note, Alice, Bob, 0)]
  }

  /** The same prekey message from alice to bob, sent with her n-th revision. */
  function Letter(n: nat): Message {
    Message(1, Chat, Note, Alice, [Delivery(Bob, Frame0())],
            Update(n, Bundle(), 0, Pool()[0], true, true))
  }

  // ---- The states on the way ----------------------------------------------

  function OnlyAlice(): State {
    State(Books(map[], 0), map[], map[], map[1 := AliceWith(RevisionWindow.Initial)])
  }

  function Registered(): State {
    State(Books(map[], 0), map[], map[], AccountsWith(RevisionWindow.Initial))
  }

  /** bob's first prekey is leased at time 0; nothing is queued yet. */
  function Leasing(): State {
    State(Books(map[], 0), Held(), map[], AccountsWith(RevisionWindow.Initial))
  }

  /** The first letter was queued at time 0; alice's window has moved on. */
  function Waiting(w: RevisionWindow.Window): State {
    State(Books(map[Box := [PendingFrame(Frame0(), 0)]], 100), Held(),
          map[ReplayKey(Chat, Alice, Note) := 0], AccountsWith(w))
  }

  const TheRequest := Request(Chat, Note, Alice, Bob)

  /** alice and bob register, and alice leases a prekey of bob's. */
  function Prelude(): seq<Step> {
    [Register(1, AliceWith(RevisionWindow.Initial)), Register(2, BobAccount()), LeaseRequest(TheRequest, 0, 0)]
  }

  lemma NamesDiffer()
    ensures Alice != Bob
  {
    assert |Alice| != |Bob|;
  }

  lemma LeaseGranted(ttl: nat)
    ensures Leased(Registered(), TheRequest, 0, 0, ttl).0 == Leasing()
  {
    var s := Registered();
    assert PrunedQueues(map[], 0, ttl) == map[];
    assert Prune(s, 0, ttl) == s by { assert Prune(s, 0, ttl).leases == map[]; }
    NamesDiffer();
    assert IsCodeOf(s.accounts, 2, Bob);
    assert CodeOf(s.accounts, Bob) == 2;
    assert PrunedLeases(map[], s.books.pending, 0) == map[];
    assert OwnLeases(map[], 2, TheRequest) == {} && LeasesOf(map[], 2) == {};
    assert LeaseChoice(s, 2, TheRequest) == Some(Pool()[0]);
  }

  lemma PreludeRuns(ttl: nat)
    ensures Run([Empty, OnlyAlice(), Registered(), Leasing()], Prelude(), ttl)
  {
    var ss := [Empty, OnlyAlice(), Registered(), Leasing()];
    NamesDiffer();
    assert StepAt(ss, Prelude(), 0, ttl);
    assert StepAt(ss, Prelude(), 1, ttl);
    assert StepAt(ss, Prelude(), 2, ttl) by { LeaseGranted(ttl); }
  }

  lemma Extended(ss: seq<State>, steps: seq<Step>, step: Step, ttl: nat) returns (more: seq<State>)
    requires Run(ss, steps, ttl) && Callable(ss[|steps|], step)
    ensures Run(more, steps + [step], ttl)
    ensures more == ss + [Next(ss[|steps|], step, ttl)]
  {
    more := ss + [Next(ss[|steps|], step, ttl)];
    forall i | 0 <= i <= |steps| ensures StepAt(more, steps + [step], i, ttl) {
      if i < |steps| { assert StepAt(ss, steps, i, ttl); }
    }
  }

  // ---- The letter ---------------------------------------------------------

  lemma LetterReady(n: nat)
    ensures Prepared(Letter(n)) && FanoutFits(Letter(n).deliveries)
    ensures EntriesOf(Letter(n)) == [Entry(Box, Frame0())]
  {
    var m := Letter(n);
    var entries := EntriesOf(m);
    assert entries[0] == Entry(Box, Frame0());
    assert m.deliveries[0].frame == Frame0();
    assert FanoutBytes(m.deliveries, 1) == 102;
  }

  lemma LetterLeased(n: nat, accounts: Accounts)
    requires 2 in accounts && accounts[2] == BobAccount()
    ensures LeasesHeld(Held(), accounts, Letter(n).deliveries)
  {
    assert Pool()[0] in Bundle().pool;
    assert IsCodeOf(accounts, 2, Bob);
  }

  /** alice's next revision is always accepted. */
  lemma LetterApplies(n: nat, w: RevisionWindow.Window)
    requires n == w.revision + 1
    ensures var a := Applied(AliceWith(w), Letter(n).update, false, None);
      a.Some? && a.value == AliceWith(a.value.window) && a.value.window.revision == n
  {
  }

  lemma LetterFits(b: Books, n: nat, now: nat)
    requires |QueueOf(b.pending, Box)| < MAX_PENDING_FRAMES && b.bytes <= 1000
    ensures Admissible(b, EntriesOf(Letter(n)), now)
    ensures PushAll(b, EntriesOf(Letter(n)), now)
         == Books(b.pending[Box := QueueOf(b.pending, Box) + [PendingFrame(Frame0(), now)]], b.bytes + 100)
  {
    LetterReady(n);
    var entries := EntriesOf(Letter(n));
    assert FitsAt(b, entries, 0, now);
    assert AdmissibleUpTo(b, entries, 0, now);
    assert PushUpTo(b, entries, 1, now) == PushOne(b, Entry(Box, Frame0()), now);
  }

  lemma IdIsFree(ids: ReplayIds, now: nat)
    requires forall k :: k in ids ==> SatSub(now, ids[k]) >= REPLAY_WINDOW_MS
    ensures LiveReplayIds(ids, now) == map[] && CanRegister(ids, ReplayKey(Chat, Alice, Note), now)
  {
    assert SenderIds(map[], Alice) == {};
  }

  /** An admission whose checks all pass, on the tables it works on. */
  lemma AdmissionPasses(s: State, m: Message, c: Clock, ttl: nat, s1: State, s2: State)
    requires s1 == Admitting(s, c, ttl) && LeasesHeld(s1.leases, s1.accounts, m.deliveries) && FanoutFits(m.deliveries)
    requires s2 == Ready(s, c, ttl) && FramesValid(s2.books.pending) && Admissible(s2.books, EntriesOf(m), c.commit)
    requires ConcludedOutcome(s2, m, c) == Admitted
    ensures RouteOutcome(s, m, c, ttl) == Admitted && Routed(s, m, c, ttl) == Concluded(s2, m, c)
  {
  }

  /** What a letter with alice's next revision does to swept tables. */
  lemma LetterConcluded(s: State, n: nat, c: Clock, w: RevisionWindow.Window)
    requires s.accounts == AccountsWith(w) && n == w.revision + 1
    requires |QueueOf(s.books.pending, Box)| < MAX_PENDING_FRAMES && s.books.bytes <= 1000
    requires forall k :: k in s.replayIds ==> SatSub(c.register, s.replayIds[k]) >= REPLAY_WINDOW_MS
    ensures ConcludedOutcome(s, Letter(n), c) == Admitted
    ensures Delivered(s, Concluded(s, Letter(n), c), n, c)
  {
    LetterFits(s.books, n, c.commit);
    LetterApplies(n, w);
    IdIsFree(s.replayIds, c.register);
  }

  ghost predicate Delivered(s: State, t: State, n: nat, c: Clock) {
    && t.books == Books(s.books.pending[Box := QueueOf(s.books.pending, Box) + [PendingFrame(Frame0(), c.commit)]],
                        s.books.bytes + 100)
    && t.leases == s.leases
    && t.replayIds == map[ReplayKey(Chat, Alice, Note) := c.register]
    && exists w: RevisionWindow.Window :: w.revision == n && t.accounts == AccountsWith(w)
  }

  lemma LetterRoutes(s: State, n: nat, c: Clock, ttl: nat, w: RevisionWindow.Window, s1: State, s2: State)
    requires s1 == Admitting(s, c, ttl) && s2 == Ready(s, c, ttl)
    requires s1.leases == Held() && s.accounts == AccountsWith(w) && n == w.revision + 1
    requires FramesValid(s2.books.pending)
    requires |QueueOf(s2.books.pending, Box)| < MAX_PENDING_FRAMES && s2.books.bytes <= 1000
    requires forall k :: k in s.replayIds ==> SatSub(c.register, s.replayIds[k]) >= REPLAY_WINDOW_MS
    ensures RouteOutcome(s, Letter(n), c, ttl) == Admitted
    ensures Delivered(s2, Routed(s, Letter(n), c, ttl), n, c)
  {
    LetterReady(n);
    LetterLeased(n, s.accounts);
    LetterFits(s2.books, n, c.commit);
    LetterConcluded(s2, n, c, w);
    AdmissionPasses(s, Letter(n), c, ttl, s1, s2);
  }

  // ---- A lease that lapses ------------------------------------------------

  /** With nothing queued a sweep drops exactly the lease that is too old. */
  lemma SweepWithoutFrames(now: nat, ttl: nat)
    ensures Prune(Leasing(), now, ttl)
         == Leasing().(leases := if now < PREKEY_LEASE_TTL_MS then Held() else map[])
  {
    assert PrunedQueues(map[], now, ttl) == map[];
    assert Prune(Leasing(), now, ttl).leases == if now < PREKEY_LEASE_TTL_MS then Held() else map[];
  }

  lemma LeasingSwept(c: Clock, ttl: nat)
    requires c.sweep < PREKEY_LEASE_TTL_MS && c.admit < PREKEY_LEASE_TTL_MS
    ensures Admitting(Leasing(), c, ttl) == Leasing()
    ensures Ready(Leasing(), c, ttl)
         == Leasing().(leases := if c.preflight < PREKEY_LEASE_TTL_MS then Held() else map[])
  {
    SweepWithoutFrames(c.sweep, ttl);
    SweepWithoutFrames(c.preflight, ttl);
    assert PrunedLeases(Held(), map[], c.admit) == Held();
  }

  /** The first letter leaves its frame, and the lease if it was still fresh at the dry run. */
  lemma FirstLetter(c: Clock, ttl: nat)
    requires c.sweep < PREKEY_LEASE_TTL_MS && c.admit < PREKEY_LEASE_TTL_MS
    ensures RouteOutcome(Leasing(), Letter(1), c, ttl) == Admitted
    ensures var t := Routed(Leasing(), Letter(1), c, ttl);
      && t.books == Books(map[Box := [PendingFrame(Frame0(), c.commit)]], 100)
      && t.leases == (if c.preflight < PREKEY_LEASE_TTL_MS then Held() else map[])
      && t.replayIds == map[ReplayKey(Chat, Alice, Note) := c.register]
      && exists w: RevisionWindow.Window :: w.revision == 1 && t.accounts == AccountsWith(w)
  {
    LeasingSwept(c, ttl);
    LetterRoutes(Leasing(), 1, c, ttl, RevisionWindow.Initial, Leasing(), Ready(Leasing(), c, ttl));
    assert [] + [PendingFrame(Frame0(), c.commit)] == [PendingFrame(Frame0(), c.commit)];
  }

  lemma FirstRuns(c: Clock, ttl: nat) returns (ss: seq<State>)
    ensures Run(ss, Prelude() + [Route(Letter(1), c)], ttl)
    ensures ss[4] == Routed(Leasing(), Letter(1), c, ttl) && ss[3] == Leasing()
  {
    ss := [Empty, OnlyAlice(), Registered(), Leasing()];
    PreludeRuns(ttl);
    LetterReady(1);
    ss := Extended(ss, Prelude(), Route(Letter(1), c), ttl);
  }

  /**
    The lease check and the dry run read the clock separately. Whenever a lease
    lapses between the two readings, the message is admitted all the same and its
    frame is queued without a lease.
   */
  lemma LeaseMayLapse(c: Clock, ttl: nat) returns (ss: seq<State>)
    requires Monotone(c) && c.admit < PREKEY_LEASE_TTL_MS <= c.preflight
    ensures Run(ss, Prelude() + [Route(Letter(1), c)], ttl)
    ensures RouteOutcome(ss[3], Letter(1), c, ttl) == Admitted && AgreesAt(ss, 3) && !FramesCovered(ss[4])
  {
    ss := FirstRuns(c, ttl);
    FirstLetter(c, ttl);
    var t := ss[4];
    assert t.books.pending[Box][0] == PendingFrame(Frame0(), c.commit);
    assert Queued(t.books.pending, Box, PendingFrame(Frame0(), c.commit));
    assert !Covered(t.leases, t.accounts, Box, Frame0());
    FittingPrelude(ss, Prelude() + [Route(Letter(1), c)], ttl);
  }

  lemma QuietFits(ss: seq<State>, steps: seq<Step>, i: nat, ttl: nat)
    requires i < |steps| && i + 1 < |ss| && !steps[i].Route?
    ensures StepFitsAt(ss, steps, i, ttl)
  {
  }

  /** Nothing is admitted in the prelude, so the tables agree up to its end. */
  lemma FittingPrelude(ss: seq<State>, steps: seq<Step>, ttl: nat)
    requires Run(ss, steps, ttl) && |steps| >= 3 && steps[..3] == Prelude()
    ensures AgreesAt(ss, 3)
  {
    forall i | 0 <= i < 3 ensures StepFitsAt(ss, steps, i, ttl) {
      assert steps[i] == steps[..3][i];
      QuietFits(ss, steps, i, ttl);
    }
    FittingRunAgrees(ss, steps, 3, ttl);
  }

  // ---- A wait longer than the replay window -------------------------------

  lemma WaitingBytes(p: Pending)
    requires p == map[Box := [PendingFrame(Frame0(), 0)]]
    ensures BytesOf(p) == 100
  {
    assert Bytes(p[Box]) == 100 by { assert p[Box][..0] == []; }
    TotalRemove(p, Bytes, Box);
    assert p - {Box} == map[];
  }

  lemma QueueUnswept(p: Pending, now: nat, ttl: nat)
    requires p.Keys == {Box} && |p[Box]| == 1 && !Expired(p[Box][0], now, ttl)
    ensures PrunedQueues(p, now, ttl) == p
  {
    var q := p[Box];
    assert Live(q, now, ttl) == q by { assert Live(q[..0], now, ttl) == []; }
  }

  lemma LeaseUnswept(p: Pending, now: nat, ttl: nat)
    requires p == map[Box := [PendingFrame(Frame0(), 0)]] && now < ttl
    ensures var kept := map lk | lk in Held() && !Released(p, now, ttl, lk, Held()[lk]) :: Held()[lk];
      PrunedLeases(kept, p, now) == Held()
    ensures PrunedLeases(Held(), p, now) == Held()
  {
    var lk := LeaseKey(2, Pool()[0]);
    assert !Released(p, now, ttl, lk, Held()[lk]);
    assert InUse(p, lk, Held()[lk]) by { assert Carries(p[Box][0].frame, lk, Held()[lk]); }
  }

  /** A sweep at which the waiting letter is still alive changes nothing. */
  lemma WaitingUnswept(s: State, now: nat, ttl: nat)
    requires s.books == Books(map[Box := [PendingFrame(Frame0(), 0)]], 100) && s.leases == Held() && now < ttl
    ensures Prune(s, now, ttl) == s && PrunedLeases(s.leases, s.books.pending, now) == s.leases
  {
    var p := s.books.pending;
    WaitingBytes(p);
    QueueUnswept(p, now, ttl);
    LeaseUnswept(p, now, ttl);
  }

  lemma WaitingSwept(s: State, c: Clock, ttl: nat)
    requires s.books == Books(map[Box := [PendingFrame(Frame0(), 0)]], 100) && s.leases == Held()
    requires c.sweep < ttl && c.admit < ttl && c.preflight < ttl
    ensures Admitting(s, c, ttl).leases == s.leases
    ensures Ready(s, c, ttl).books == s.books && Ready(s, c, ttl).leases == s.leases
  {
    WaitingUnswept(s, c.sweep, ttl);
    WaitingUnswept(s, c.admit, ttl);
    WaitingUnswept(s, c.preflight, ttl);
  }

  function Both(later: nat): seq<PendingFrame> {
    [PendingFrame(Frame0(), 0), PendingFrame(Frame0(), later)]
  }

  lemma DeliveredTwice(s: State, t: State, c: Clock)
    requires Delivered(s, t, 2, c) && s.books.pending == map[Box := [PendingFrame(Frame0(), 0)]]
    ensures t.books.pending == map[Box := Both(c.commit)]
  {
    assert QueueOf(s.books.pending, Box) + [PendingFrame(Frame0(), c.commit)] == Both(c.commit);
  }

  lemma WaitingHasRoom(b: Books)
    requires b == Books(map[Box := [PendingFrame(Frame0(), 0)]], 100)
    ensures FramesValid(b.pending) && |QueueOf(b.pending, Box)| == 1
  {
  }

  lemma SecondDelivered(s: State, w: RevisionWindow.Window, c: Clock, ttl: nat)
    requires s.books == Books(map[Box := [PendingFrame(Frame0(), 0)]], 100) && s.leases == Held()
    requires s.accounts == AccountsWith(w) && w.revision == 1
    requires forall k :: k in s.replayIds ==> s.replayIds[k] == 0
    requires c.sweep < ttl && c.admit < ttl && c.preflight < ttl && c.register >= REPLAY_WINDOW_MS
    ensures RouteOutcome(s, Letter(2), c, ttl) == Admitted
    ensures Delivered(Ready(s, c, ttl), Routed(s, Letter(2), c, ttl), 2, c)
    ensures Ready(s, c, ttl).books == s.books && Ready(s, c, ttl).leases == s.leases
  {
    WaitingHasRoom(s.books);
    WaitingSwept(s, c, ttl);
    LetterRoutes(s, 2, c, ttl, w, Admitting(s, c, ttl), Ready(s, c, ttl));
  }

  /** After one replay window the id is forgotten, and the same letter commits again. */
  lemma SecondLetter(s: State, w: RevisionWindow.Window, c: Clock, ttl: nat)
    requires s == Waiting(w) && w.revision == 1
    requires c.sweep < ttl && c.admit < ttl && c.preflight < ttl && c.register >= REPLAY_WINDOW_MS
    ensures RouteOutcome(s, Letter(2), c, ttl) == Admitted
    ensures var t := Routed(s, Letter(2), c, ttl);
      t.leases == Held() && t.books.pending == map[Box := Both(c.commit)]
  {
    SecondDelivered(s, w, c, ttl);
    DeliveredTwice(Ready(s, c, ttl), Routed(s, Letter(2), c, ttl), c);
  }

  /** The lease is still held at the dry run of the second copy. */
  lemma SecondLeased(s: State, w: RevisionWindow.Window, c: Clock, ttl: nat)
    requires s == Waiting(w) && c.sweep < ttl && c.admit < ttl && c.preflight < ttl
    ensures LeasesHeld(Ready(s, c, ttl).leases, s.accounts, Letter(2).deliveries)
  {
    WaitingSwept(s, c, ttl);
    LetterLeased(2, s.accounts);
  }

  /** Of two copies of the letter only the older one is due: it takes the common lease away. */
  lemma CommonLeaseGoes(s: State, later: nat, now: nat, ttl: nat)
    requires s.books.pending == map[Box := Both(later)] && s.leases == Held()
    requires 0 < ttl <= now < later + ttl
    ensures !FramesCovered(Prune(s, now, ttl))
  {
    var p := s.books.pending;
    var q, t := p[Box], Prune(s, now, ttl);
    assert q[..1][..0] == [] && q[..2] == q;
    assert Live(q[..1], now, ttl) == [];
    assert Live(q, now, ttl) == [PendingFrame(Frame0(), later)];
    assert Queued(t.books.pending, Box, PendingFrame(Frame0(), later));
    var lk := LeaseKey(2, Pool()[0]);
    assert Released(p, now, ttl, lk, Held()[lk]) by { assert Carries(p[Box][0].frame, lk, Held()[lk]); }
    assert t.leases == map[];
  }

  const Start := Clock(0, 0, 0, 0, 0)

  /** The dry run as late as the replay window allows, the registration `elapsed` after it. */
  function Slow(elapsed: nat): Clock {
    var begun := SatSub(REPLAY_WINDOW_MS, elapsed);
    Clock(begun, begun, begun, begun + elapsed, begun + elapsed)
  }

  function Twice(c: Clock): seq<Step> {
    Prelude() + [Route(Letter(1), Start)] + [Route(Letter(2), c)]
  }

  lemma WaitingReached(ttl: nat) returns (ss: seq<State>, w: RevisionWindow.Window)
    ensures Run(ss, Prelude() + [Route(Letter(1), Start)], ttl)
    ensures RouteOutcome(ss[3], Letter(1), Start, ttl) == Admitted
    ensures ss[4] == Waiting(w) && w.revision == 1
  {
    ss := FirstRuns(Start, ttl);
    FirstLetter(Start, ttl);
    w :| w.revision == 1 && ss[4].accounts == AccountsWith(w);
  }

  lemma RoutedAgain(first: seq<State>, c: Clock, ttl: nat) returns (ss: seq<State>)
    requires Run(first, Prelude() + [Route(Letter(1), Start)], ttl) && IsCodeOf(first[4].accounts, 1, Alice)
    ensures Run(ss, Twice(c), ttl) && ss[..5] == first && ss[5] == Routed(first[4], Letter(2), c, ttl)
  {
    LetterReady(2);
    ss := Extended(first, Prelude() + [Route(Letter(1), Start)], Route(Letter(2), c), ttl);
  }

  lemma TwiceReached(c: Clock, ttl: nat) returns (ss: seq<State>)
    requires c.sweep < ttl && c.admit < ttl && c.preflight < ttl && c.register >= REPLAY_WINDOW_MS
    ensures Run(ss, Twice(c), ttl)
    ensures RouteOutcome(ss[3], Letter(1), Start, ttl) == Admitted
    ensures RouteOutcome(ss[4], Letter(2), c, ttl) == Admitted
    ensures LeasesHeld(Ready(ss[4], c, ttl).leases, ss[4].accounts, Letter(2).deliveries)
    ensures ss[5].leases == Held() && ss[5].books.pending == map[Box := Both(c.commit)]
  {
    var first, w := WaitingReached(ttl);
    ss := RoutedAgain(first, c, ttl);
    assert ss[4] == ss[..5][4] && ss[3] == ss[..5][3];
    SecondLetter(first[4], w, c, ttl);
    SecondLeased(first[4], w, c, ttl);
  }

  /** The letter, the letter once more, and a sweep when the first copy is due. */
  function LongWait(ttl: nat, elapsed: nat): seq<Step> {
    var c := Slow(elapsed);
    Twice(c) + [Sweep(if ttl > c.register then ttl else c.register)]
  }

  /**
    Whenever the time to live of frames and the time from dry run to registration
    add up to more than the replay window, a letter still waiting can be admitted
    a second time under the same lease, which is held all along; the sweep that
    drops the first copy then uncovers the second. All readings of the run are in
    order.
   */
  lemma LongWaitUncovers(ttl: nat, elapsed: nat) returns (ss: seq<State>)
    requires 0 < ttl && REPLAY_WINDOW_MS < ttl + elapsed
    ensures Run(ss, LongWait(ttl, elapsed), ttl)
    ensures RouteOutcome(ss[3], Letter(1), Start, ttl) == Admitted
    ensures RouteOutcome(ss[4], Letter(2), Slow(elapsed), ttl) == Admitted
    ensures LeasesHeld(Ready(ss[4], Slow(elapsed), ttl).leases, ss[4].accounts, Letter(2).deliveries)
    ensures Monotone(Slow(elapsed)) && Slow(elapsed).register - Slow(elapsed).preflight == elapsed
    ensures !FramesCovered(ss[6])
  {
    var c := Slow(elapsed);
    var now := LongWait(ttl, elapsed)[5].now;
    ss := TwiceReached(c, ttl);
    CommonLeaseGoes(ss[5], c.commit, now, ttl);
    ss := Extended(ss, Twice(c), Sweep(now), ttl);
  }
}
