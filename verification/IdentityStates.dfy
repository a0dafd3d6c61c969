/**
  Identity states of accounts: exactly which presented state is accepted, what
  an accepted one changes, and where an account's public identity comes from.
 */
module IdentityStates {
  import opened Basics
  import opened PendingQueues
  import opened Admission
  import opened Agreement
  import opened AdmissionRuns
  import RevisionWindow

  // ---- The prekey pool ----------------------------------------------------

  /** The pool trades this id for one new id, or keeps everything in its place. */
  ghost predicate Trades(previous: seq<Name>, next: seq<Name>, consumed: Option<Name>) {
    match consumed
    case None => previous == next
    case Some(used) =>
      && used in previous && used !in next
      && (exists added :: added !in previous && added in next
            && forall id :: id in next ==> (id in previous && id != used) || id == added)
      && (forall id :: id in previous && id != used ==> id in next)
  }

  lemma {:induction false} WithoutOnly(s: seq<Name>, t: seq<Name>, x: Name)
    requires Distinct(s)
    ensures Without(s, t) == [x] <==> x in s && x !in t && forall y :: y in s && y != x ==> y in t
  {
    if s != [] {
      var rest := Without(s[1..], t);
      assert s == [s[0]] + s[1..];
      assert s[0] !in s[1..];
      if s[0] in t {
        WithoutOnly(s[1..], t, x);
      } else if rest == [] {
        assert forall y :: y in s[1..] ==> y in t by {
          forall y | y in s[1..] ensures y in t { assert y !in rest; }
        }
      } else {
        assert rest[0] in rest;
        assert |[s[0]] + rest| > 1;
      }
    }
  }

  lemma TransitionIsTrade(previous: seq<Name>, next: seq<Name>, consumed: Option<Name>)
    requires Distinct(previous) && Distinct(next)
    ensures PoolTransition(previous, next, consumed) <==> Trades(previous, next, consumed)
  {
    if consumed.Some? {
      var used, added := consumed.value, Without(next, previous);
      WithoutOnly(previous, next, used);
      if |added| == 1 {
        assert added == [added[0]] && added[0] in added;
        WithoutOnly(next, previous, added[0]);
      }
      if Trades(previous, next, consumed) {
        var x :| x !in previous && x in next && forall id :: id in next ==> (id in previous && id != used) || id == x;
        WithoutOnly(next, previous, x);
      }
    }
  }

  // ---- Acceptance ---------------------------------------------------------

  /** A well-formed, signed state of the same long-term key. */
  predicate Genuine(a: Account, u: Update) {
    && u.envelopeOk && u.signatureOk
    && Canonical(u.identity) && u.prekeyId == u.identity.pool[0]
    && u.identity.fingerprint == a.identity.fingerprint
  }

  /** A newer state within reach, or an older one of the very identity whose revision is still open. */
  ghost predicate Timely(a: Account, u: Update, allowReuse: bool, accepted: set<nat>) {
    if u.revision > a.window.revision then u.revision <= a.window.revision + RevisionWindow.MAX_ADVANCE
    else
      && u.identity == a.identity && u.prekeyId == a.prekeyId
      && (allowReuse
          || (u.revision !in accepted && a.window.revision < u.revision + RevisionWindow.WINDOW_BITS))
  }

  /** What an accepted state makes of an account. */
  ghost predicate Becomes(a: Account, u: Update, b: Account) {
    if u.revision > a.window.revision then
      && b.username == a.username && b.identity == u.identity && b.envelope == u.envelope && b.prekeyId == u.prekeyId
      && b.window.revision == u.revision
    else
      && b.username == a.username && b.identity == a.identity && b.envelope == a.envelope && b.prekeyId == a.prekeyId
      && b.window.revision == a.window.revision
  }

  /**
    A presented state is accepted exactly when it is genuine, its pool differs
    from the current one by exactly the consumption at hand, and its revision is
    timely. A newer one replaces identity, envelope and prekey id; an older one
    leaves all but its mark in the window.
   */
  lemma AppliedIff(a: Account, u: Update, allowReuse: bool, consumed: Option<Name>, accepted: set<nat>)
    requires Canonical(a.identity) && RevisionWindow.Shows(a.window, accepted)
    ensures Applied(a, u, allowReuse, consumed).Some? <==>
            && Genuine(a, u) && Trades(a.identity.pool, u.identity.pool, consumed)
            && Timely(a, u, allowReuse, accepted)
    ensures var r := Applied(a, u, allowReuse, consumed);
      r.Some? ==> Becomes(a, u, r.value) && RevisionWindow.Shows(r.value.window, accepted + {u.revision})
  {
    if Canonical(u.identity) { TransitionIsTrade(a.identity.pool, u.identity.pool, consumed); }
    RevisionWindow.OfferRefines(a.window, accepted, u.revision, allowReuse);
  }

  // ---- Whole runs ---------------------------------------------------------

  /** The step presents an identity state for this account. */
  predicate Presents(step: Step, code: CodeId) {
    match step
    case Route(m, _) => m.senderCode == code
    case Acknowledge(a, _) => a.code == code
    case UpdateIdentity(c, _) => c == code
    case _ => false
  }

  function StateOf(step: Step): Update
    requires step.Route? || step.Acknowledge? || step.UpdateIdentity?
  {
    match step
    case Route(m, _) => m.update
    case Acknowledge(a, _) => a.update
    case UpdateIdentity(_, u) => u
  }

  function ConsumedBy(step: Step): Option<Name> {
    if step.Acknowledge? then Consumed(step.ack) else None
  }

  /** The step presents an identity state for this account, and it is accepted. */
  ghost predicate AcceptsFor(s: State, step: Step, ttl: nat, code: CodeId) {
    && Presents(step, code)
    && match step
       case Route(_, _) => Admits(s, step, ttl)
       case Acknowledge(a, now) => exists i :: AckAccepted(Prune(s, now, ttl), a, i)
       case UpdateIdentity(c, u) => Updatable(s, c, u)
  }

  /** An account moves by its accepted states alone. */
  ghost predicate Moves(s: State, step: Step, ttl: nat, code: CodeId, b: Account)
    requires code in s.accounts
  {
    if AcceptsFor(s, step, ttl, code)
    then Applied(s.accounts[code], StateOf(step), !step.Route?, ConsumedBy(step)) == Some(b)
    else b == s.accounts[code]
  }

  lemma AckMoves(s: State, a: Ack, now: nat, ttl: nat, code: CodeId)
    requires code in s.accounts
    ensures code in Acknowledged(s, a, now, ttl).accounts
    ensures Moves(s, Acknowledge(a, now), ttl, code, Acknowledged(s, a, now, ttl).accounts[code])
  {
    var s1, t := Prune(s, now, ttl), Acknowledged(s, a, now, ttl);
    if exists i :: AckAccepted(s1, a, i) {
      var i :| AckAccepted(s1, a, i) && t == Acked(s1, a, i);
    }
  }

  lemma RouteMoves(s: State, m: Message, c: Clock, ttl: nat, code: CodeId)
    requires code in s.accounts
    ensures code in Routed(s, m, c, ttl).accounts
    ensures Moves(s, Route(m, c), ttl, code, Routed(s, m, c, ttl).accounts[code])
  {
  }

  lemma StepMoves(s: State, step: Step, ttl: nat, code: CodeId)
    requires Callable(s, step) && !step.Wipe? && code in s.accounts
    ensures code in Next(s, step, ttl).accounts && Moves(s, step, ttl, code, Next(s, step, ttl).accounts[code])
  {
    match step
    case Route(m, c) => RouteMoves(s, m, c, ttl, code);
    case Acknowledge(a, now) => AckMoves(s, a, now, ttl, code);
    case _ =>
  }

  /** Accounts come from registrations only. */
  lemma AccountAppears(s: State, step: Step, ttl: nat, code: CodeId)
    requires code in Next(s, step, ttl).accounts
    ensures code in s.accounts
         || (step.Register? && step.newCode == code && Next(s, step, ttl).accounts[code] == step.account)
  {
    match step
    case Acknowledge(a, now) => AckKeepsCodes(s, a, now, ttl);
    case Route(m, c) => RouteKeepsCodes(s, m, c, ttl);
    case _ =>
  }

  lemma RouteKeepsCodes(s: State, m: Message, c: Clock, ttl: nat)
    ensures Routed(s, m, c, ttl).accounts.Keys == s.accounts.Keys
  {
  }

  lemma AckKeepsCodes(s: State, a: Ack, now: nat, ttl: nat)
    ensures Acknowledged(s, a, now, ttl).accounts.Keys == s.accounts.Keys
  {
    var s1 := Prune(s, now, ttl);
    if exists i :: AckAccepted(s1, a, i) {
      var i :| AckAccepted(s1, a, i) && Acknowledged(s, a, now, ttl) == Acked(s1, a, i);
    }
  }

  /** The revisions of an account that were accepted since it was registered, its first one included. */
  ghost function AcceptedBy(ss: seq<State>, steps: seq<Step>, n: nat, ttl: nat, code: CodeId): set<nat>
    requires n <= |steps| && n < |ss|
  {
    if n == 0 then {}
    else if steps[n - 1].Register? && steps[n - 1].newCode == code then {0}
    else
      AcceptedBy(ss, steps, n - 1, ttl, code)
      + if AcceptsFor(ss[n - 1], steps[n - 1], ttl, code) then {StateOf(steps[n - 1]).revision} else {}
  }

  lemma StepShows(s: State, step: Step, ttl: nat, code: CodeId, accepted: set<nat>)
    requires Orderly(s) && Callable(s, step) && !step.Wipe?
    requires code in s.accounts && RevisionWindow.Shows(s.accounts[code].window, accepted)
    ensures code in Next(s, step, ttl).accounts
    ensures var more := if AcceptsFor(s, step, ttl, code) then {StateOf(step).revision} else {};
      RevisionWindow.Shows(Next(s, step, ttl).accounts[code].window, accepted + more)
  {
    StepMoves(s, step, ttl, code);
    if AcceptsFor(s, step, ttl, code) {
      AppliedIff(s.accounts[code], StateOf(step), !step.Route?, ConsumedBy(step), accepted);
    } else {
      assert accepted + {} == accepted;
    }
  }

  /** In every reachable state an account's window shows exactly the revisions accepted in the run. */
  lemma {:induction false} ReachableShows(ss: seq<State>, steps: seq<Step>, n: nat, ttl: nat, code: CodeId)
    requires Run(ss, steps, ttl) && n < |ss| && code in ss[n].accounts
    ensures RevisionWindow.Shows(ss[n].accounts[code].window, AcceptedBy(ss, steps, n, ttl, code))
  {
    assert n > 0;
    assert StepAt(ss, steps, n - 1, ttl);
    if code in ss[n - 1].accounts {
      ReachableShows(ss, steps, n - 1, ttl, code);
      ReachableOrderly(ss, steps, n - 1, ttl);
      StepShows(ss[n - 1], steps[n - 1], ttl, code, AcceptedBy(ss, steps, n - 1, ttl, code));
    } else {
      AccountAppears(ss[n - 1], steps[n - 1], ttl, code);
      RevisionWindow.InitialShows();
    }
  }

  /**
    In every reachable state an identity state is accepted exactly when it is
    genuine, trades the prekeys it may trade, and its revision is timely against
    the revisions accepted so far in the run.
   */
  lemma StateAcceptedIff(ss: seq<State>, steps: seq<Step>, n: nat, ttl: nat, code: CodeId,
                         u: Update, allowReuse: bool, consumed: Option<Name>)
    requires Run(ss, steps, ttl) && n < |ss| && code in ss[n].accounts
    ensures var a := ss[n].accounts[code];
      Applied(a, u, allowReuse, consumed).Some? <==>
        && Genuine(a, u) && Trades(a.identity.pool, u.identity.pool, consumed)
        && Timely(a, u, allowReuse, AcceptedBy(ss, steps, n, ttl, code))
  {
    ReachableShows(ss, steps, n, ttl, code);
    ReachableOrderly(ss, steps, n, ttl);
    AppliedIff(ss[n].accounts[code], u, allowReuse, consumed, AcceptedBy(ss, steps, n, ttl, code));
  }

  /** An identity update is accepted exactly with an unchanged pool, and revisions may repeat. */
  lemma UpdateAcceptedIff(ss: seq<State>, steps: seq<Step>, n: nat, ttl: nat, code: CodeId, u: Update)
    requires Run(ss, steps, ttl) && n < |ss|
    ensures Updatable(ss[n], code, u) <==>
            && code in ss[n].accounts && Genuine(ss[n].accounts[code], u)
            && u.identity.pool == ss[n].accounts[code].identity.pool
            && Timely(ss[n].accounts[code], u, true, AcceptedBy(ss, steps, n, ttl, code))
  {
    if code in ss[n].accounts { StateAcceptedIff(ss, steps, n, ttl, code, u, true, None); }
  }

  // ---- Where an account's identity comes from -----------------------------

  /** The step wrote this identity, envelope, prekey id and revision into the account. */
  ghost predicate Wrote(s: State, step: Step, ttl: nat, code: CodeId, b: Account) {
    if step.Register? then
      && step.newCode == code && b.username == step.account.username && b.window.revision == 0
      && b.identity == step.account.identity && b.envelope == step.account.envelope
      && b.prekeyId == step.account.prekeyId
    else
      && AcceptsFor(s, step, ttl, code) && StateOf(step).signatureOk && StateOf(step).envelopeOk
      && b.identity == StateOf(step).identity && b.envelope == StateOf(step).envelope
      && b.prekeyId == StateOf(step).prekeyId && b.window.revision == StateOf(step).revision
  }

  ghost predicate WroteAt(ss: seq<State>, steps: seq<Step>, i: nat, ttl: nat, code: CodeId, b: Account)
    requires i < |steps| && i < |ss|
  {
    Wrote(ss[i], steps[i], ttl, code, b)
  }

  /** The step accepts nothing newer for the account and does not wipe it. */
  ghost predicate Older(ss: seq<State>, steps: seq<Step>, k: nat, ttl: nat, code: CodeId, revision: nat)
    requires k < |steps| && k < |ss|
  {
    !steps[k].Wipe? && (AcceptsFor(ss[k], steps[k], ttl, code) ==> StateOf(steps[k]).revision <= revision)
  }

  ghost predicate NewestAt(ss: seq<State>, steps: seq<Step>, i: nat, n: nat, ttl: nat, code: CodeId, b: Account)
    requires i < n <= |steps| && n < |ss|
  {
    && WroteAt(ss, steps, i, ttl, code, b)
    && forall k :: i < k < n ==> Older(ss, steps, k, ttl, code, b.window.revision)
  }

  /** One step either writes the account or leaves what it does not write. */
  lemma StepWrites(s: State, step: Step, ttl: nat, code: CodeId)
    requires Orderly(s) && Callable(s, step) && !step.Wipe? && code in s.accounts
    requires exists accepted :: RevisionWindow.Shows(s.accounts[code].window, accepted)
    ensures code in Next(s, step, ttl).accounts
    ensures var a, b := s.accounts[code], Next(s, step, ttl).accounts[code];
      || Wrote(s, step, ttl, code, b)
      || (&& SameIdentity(a, b)
          && (AcceptsFor(s, step, ttl, code) ==> StateOf(step).revision <= a.window.revision))
  {
    StepMoves(s, step, ttl, code);
    if AcceptsFor(s, step, ttl, code) {
      var accepted :| RevisionWindow.Shows(s.accounts[code].window, accepted);
      AppliedIff(s.accounts[code], StateOf(step), !step.Route?, ConsumedBy(step), accepted);
    }
  }

  /**
    In every reachable state the identity, the envelope, the prekey id and the
    revision of an account are those of its registration or of a signed state
    accepted since, and nothing newer was accepted after it.
   */
  lemma {:induction false} IdentityIsNewest(ss: seq<State>, steps: seq<Step>, n: nat, ttl: nat, code: CodeId)
    requires Run(ss, steps, ttl) && n < |ss| && code in ss[n].accounts
    ensures exists i :: 0 <= i < n && NewestAt(ss, steps, i, n, ttl, code, ss[n].accounts[code])
  {
    assert n > 0;
    WritesAt(ss, steps, n - 1, ttl, code);
    var b := ss[n].accounts[code];
    if WroteAt(ss, steps, n - 1, ttl, code, b) {
      assert NewestAt(ss, steps, n - 1, n, ttl, code, b);
    } else {
      IdentityIsNewest(ss, steps, n - 1, ttl, code);
      var i :| 0 <= i < n - 1 && NewestAt(ss, steps, i, n - 1, ttl, code, ss[n - 1].accounts[code]);
      StillNewest(ss, steps, i, n, ttl, code);
    }
  }

  lemma StillNewest(ss: seq<State>, steps: seq<Step>, i: nat, n: nat, ttl: nat, code: CodeId)
    requires i < n - 1 < |steps| && n < |ss| && code in ss[n - 1].accounts && code in ss[n].accounts
    requires NewestAt(ss, steps, i, n - 1, ttl, code, ss[n - 1].accounts[code])
    requires SameIdentity(ss[n - 1].accounts[code], ss[n].accounts[code])
    requires Older(ss, steps, n - 1, ttl, code, ss[n].accounts[code].window.revision)
    ensures NewestAt(ss, steps, i, n, ttl, code, ss[n].accounts[code])
  {
  }

  predicate SameIdentity(a: Account, b: Account) {
    && b.username == a.username && b.identity == a.identity && b.envelope == a.envelope
    && b.prekeyId == a.prekeyId && b.window.revision == a.window.revision
  }

  /** Each step of a run writes the account it leaves, or leaves the identity it found and accepts nothing newer. */
  lemma WritesAt(ss: seq<State>, steps: seq<Step>, i: nat, ttl: nat, code: CodeId)
    requires Run(ss, steps, ttl) && i < |steps| && code in ss[i + 1].accounts
    ensures || WroteAt(ss, steps, i, ttl, code, ss[i + 1].accounts[code])
            || (&& code in ss[i].accounts && SameIdentity(ss[i].accounts[code], ss[i + 1].accounts[code])
                && Older(ss, steps, i, ttl, code, ss[i + 1].accounts[code].window.revision))
  {
    assert StepAt(ss, steps, i, ttl);
    if code in ss[i].accounts {
      ReachableShows(ss, steps, i, ttl, code);
      ReachableOrderly(ss, steps, i, ttl);
      StepWrites(ss[i], steps[i], ttl, code);
    } else {
      AccountAppears(ss[i], steps[i], ttl, code);
    }
  }
}
