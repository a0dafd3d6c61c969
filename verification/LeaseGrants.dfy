/**
  Granting prekey leases: one lease per request at any time, what a request is
  answered, and why a lease is gone after a step.
 */
module LeaseGrants {
  import opened Basics
  import opened PendingQueues
  import opened Admission
  import opened Agreement
  import opened AdmissionRuns

  /** The lease under this key belongs to the request. */
  predicate Owns(leases: Leases, lk: LeaseKey, r: Request) {
    && lk in leases && leases[lk].chat == r.chat && leases[lk].message == r.message
    && leases[lk].sender == r.sender && leases[lk].recipient == r.recipient
  }

  /** At most one lease per recipient code, chat, message, sender and recipient. */
  ghost predicate OneLeaseEach(leases: Leases) {
    forall r, lk, mk :: Owns(leases, lk, r) && Owns(leases, mk, r) && lk.code == mk.code ==> lk == mk
  }

  lemma FewerLeases(leases: Leases, fewer: Leases)
    requires OneLeaseEach(leases) && forall lk :: lk in fewer ==> lk in leases && fewer[lk] == leases[lk]
    ensures OneLeaseEach(fewer)
  {
    forall r, lk, mk | Owns(fewer, lk, r) && Owns(fewer, mk, r) && lk.code == mk.code ensures lk == mk {
      assert Owns(leases, lk, r) && Owns(leases, mk, r);
    }
  }

  lemma NewLease(leases: Leases, lk: LeaseKey, r: Request, now: nat)
    requires OneLeaseEach(leases) && forall mk :: Owns(leases, mk, r) ==> mk.code != lk.code
    ensures OneLeaseEach(leases[lk := Lease(r.chat, r.message, r.sender, r.recipient, now)])
  {
    var more := leases[lk := Lease(r.chat, r.message, r.sender, r.recipient, now)];
    forall q, nk, mk | Owns(more, nk, q) && Owns(more, mk, q) && nk.code == mk.code ensures nk == mk {
      assert nk != lk ==> Owns(leases, nk, q);
      assert mk != lk ==> Owns(leases, mk, q);
    }
  }

  // ---- What a request is answered -----------------------------------------

  /** The id is the pool element before which every id is leased. */
  predicate FirstFree(pool: seq<Name>, leases: Leases, code: CodeId, id: Name) {
    && LeaseKey(code, id) !in leases
    && exists i :: 0 <= i < |pool| && pool[i] == id && forall j :: 0 <= j < i ==> LeaseKey(code, pool[j]) in leases
  }

  lemma {:induction false} UnleasedIsFirst(pool: seq<Name>, leases: Leases, code: CodeId, id: Name)
    ensures FirstUnleased(pool, leases, code) == Some(id) <==> FirstFree(pool, leases, code, id)
  {
    if pool != [] {
      UnleasedIsFirst(pool[1..], leases, code, id);
      if LeaseKey(code, pool[0]) in leases {
        if FirstFree(pool[1..], leases, code, id) {
          var i :| 0 <= i < |pool[1..]| && pool[1..][i] == id
                && forall j :: 0 <= j < i ==> LeaseKey(code, pool[1..][j]) in leases;
          forall j | 0 <= j < i + 1 ensures LeaseKey(code, pool[j]) in leases {
            assert j > 0 ==> pool[j] == pool[1..][j - 1];
          }
          assert pool[i + 1] == id;
        }
        if FirstFree(pool, leases, code, id) {
          var i :| 0 <= i < |pool| && pool[i] == id && forall j :: 0 <= j < i ==> LeaseKey(code, pool[j]) in leases;
          assert i > 0 && pool[1..][i - 1] == id;
          forall j | 0 <= j < i - 1 ensures LeaseKey(code, pool[1..][j]) in leases {
            assert pool[1..][j] == pool[j + 1];
          }
        }
      }
    }
  }

  lemma {:induction false} KeysOfPool(pool: seq<Name>, code: CodeId)
    requires Distinct(pool)
    ensures |set p | p in pool :: LeaseKey(code, p)| == |pool|
  {
    if pool != [] {
      var rest := pool[1..];
      KeysOfPool(rest, code);
      assert pool == [pool[0]] + rest && pool[0] !in rest;
      assert (set p | p in pool :: LeaseKey(code, p))
          == (set p | p in rest :: LeaseKey(code, p)) + {LeaseKey(code, pool[0])};
    }
  }

  lemma SubsetSize<T>(a: set<T>, b: set<T>)
    requires a <= b
    ensures |a| <= |b| && (|a| == |b| ==> a == b)
  {
    var rest := b - a;
    assert b == a + rest;
    assert |b| == |a| + |rest|;
  }

  /** The recipient's share of the table is used up exactly when every prekey of the pool is leased. */
  lemma ShareIsPool(leases: Leases, accounts: Accounts, code: CodeId)
    requires AccountsCanonical(accounts) && LeasesInPool(leases, accounts) && code in accounts
    ensures |LeasesOf(leases, code)| >= MAX_PREKEY_LEASES_PER_RECIPIENT <==>
            forall p :: p in accounts[code].identity.pool ==> LeaseKey(code, p) in leases
  {
    var pool := accounts[code].identity.pool;
    var mine, all := LeasesOf(leases, code), set p | p in pool :: LeaseKey(code, p);
    assert mine <= all;
    KeysOfPool(pool, code);
    SubsetSize(mine, all);
    if forall p :: p in pool ==> LeaseKey(code, p) in leases {
      assert mine == all;
    }
    if |mine| >= MAX_PREKEY_LEASES_PER_RECIPIENT {
      forall p | p in pool ensures LeaseKey(code, p) in leases {
        assert LeaseKey(code, p) in all;
      }
    }
  }

  /** The leases that a request finds. */
  ghost function Left(s: State, sweep: nat, now: nat, ttl: nat): Leases {
    var s1 := Prune(s, sweep, ttl);
    PrunedLeases(s1.leases, s1.books.pending, now)
  }

  lemma OwnIffOwns(leases: Leases, code: CodeId, r: Request, lk: LeaseKey)
    ensures lk in OwnLeases(leases, code, r) <==> lk.code == code && Owns(leases, lk, r)
  {
  }

  lemma OwnIsSole(leases: Leases, code: CodeId, r: Request, lk: LeaseKey)
    requires OneLeaseEach(leases) && lk.code == code && Owns(leases, lk, r)
    ensures OwnLeases(leases, code, r) == {lk}
  {
    forall mk ensures mk in OwnLeases(leases, code, r) <==> mk == lk {
      OwnIffOwns(leases, code, r, mk);
    }
  }

  lemma ChoiceOfOwner(s: State, code: CodeId, r: Request, lk: LeaseKey)
    requires code in s.accounts && OneLeaseEach(s.leases) && lk.code == code && Owns(s.leases, lk, r)
    ensures LeaseChoice(s, code, r) == Some(lk.prekey)
  {
    OwnIsSole(s.leases, code, r, lk);
  }

  lemma ChoiceOfNewcomer(s: State, code: CodeId, r: Request, id: Name)
    requires code in s.accounts && AccountsCanonical(s.accounts) && LeasesInPool(s.leases, s.accounts)
    requires forall lk :: Owns(s.leases, lk, r) ==> lk.code != code
    ensures LeaseChoice(s, code, r) == Some(id) <==>
            |s.leases| < MAX_PREKEY_LEASES && FirstFree(s.accounts[code].identity.pool, s.leases, code, id)
  {
    var pool := s.accounts[code].identity.pool;
    forall lk ensures lk !in OwnLeases(s.leases, code, r) { OwnIffOwns(s.leases, code, r, lk); }
    assert OwnLeases(s.leases, code, r) == {};
    UnleasedIsFirst(pool, s.leases, code, id);
    ShareIsPool(s.leases, s.accounts, code);
    if FirstFree(pool, s.leases, code, id) {
      assert id in pool;
    }
  }

  /**
    A request that holds a lease is answered with that lease, and nothing changes
    but what the pruning took. The branch for two leases of one request is dead.
   */
  lemma RepeatedRequest(s: State, r: Request, sweep: nat, now: nat, ttl: nat, lk: LeaseKey)
    requires Orderly(s) && OneLeaseEach(s.leases)
    requires IsCodeOf(s.accounts, lk.code, r.recipient) && Owns(Left(s, sweep, now, ttl), lk, r)
    ensures Leased(s, r, sweep, now, ttl)
         == (Prune(s, sweep, ttl).(leases := Left(s, sweep, now, ttl)), Some(lk.prekey))
  {
    var s1 := Prune(s, sweep, ttl);
    var s2 := s1.(leases := Left(s, sweep, now, ttl));
    assert Known(s1.accounts, r.recipient) && CodeOf(s1.accounts, r.recipient) == lk.code;
    FewerLeases(s.leases, s2.leases);
    ChoiceOfOwner(s2, lk.code, r, lk);
  }

  /**
    A request without a lease is granted exactly the first free prekey of the
    recipient's pool, if there is one and the table has room; the new lease is the
    only change beyond the pruning.
   */
  lemma FreshRequest(s: State, r: Request, sweep: nat, now: nat, ttl: nat, code: CodeId, id: Name)
    requires Orderly(s) && IsCodeOf(s.accounts, code, r.recipient)
    requires forall lk :: Owns(Left(s, sweep, now, ttl), lk, r) ==> lk.code != code
    ensures var left := Left(s, sweep, now, ttl);
      Leased(s, r, sweep, now, ttl).1 == Some(id) <==>
        |left| < MAX_PREKEY_LEASES && FirstFree(s.accounts[code].identity.pool, left, code, id)
    ensures var (t, granted) := Leased(s, r, sweep, now, ttl);
      var more := Left(s, sweep, now, ttl)[LeaseKey(code, id) := Lease(r.chat, r.message, r.sender, r.recipient, now)];
      granted == Some(id) ==> t == Prune(s, sweep, ttl).(leases := more)
  {
    var s1 := Prune(s, sweep, ttl);
    var s2 := s1.(leases := Left(s, sweep, now, ttl));
    assert Known(s1.accounts, r.recipient) && CodeOf(s1.accounts, r.recipient) == code;
    PruneOrderly(s, sweep, ttl);
    PrunedLeasesAgree(s1, now);
    ChoiceOfNewcomer(s2, code, r, id);
  }

  // ---- One lease per request over runs ------------------------------------

  lemma LeasedKeepsOne(s: State, r: Request, sweep: nat, now: nat, ttl: nat)
    requires Orderly(s) && OneLeaseEach(s.leases)
    ensures OneLeaseEach(Leased(s, r, sweep, now, ttl).0.leases)
  {
    var s1, t := Prune(s, sweep, ttl), Leased(s, r, sweep, now, ttl).0;
    FewerLeases(s.leases, s1.leases);
    if Known(s1.accounts, r.recipient) {
      var code := CodeOf(s1.accounts, r.recipient);
      KnownKeepsOne(s, r, sweep, now, ttl, code);
    }
  }

  lemma KnownKeepsOne(s: State, r: Request, sweep: nat, now: nat, ttl: nat, code: CodeId)
    requires Orderly(s) && OneLeaseEach(s.leases) && IsCodeOf(s.accounts, code, r.recipient)
    ensures OneLeaseEach(Leased(s, r, sweep, now, ttl).0.leases)
  {
    var left, granted := Left(s, sweep, now, ttl), Leased(s, r, sweep, now, ttl).1;
    FewerLeases(s.leases, left);
    if lk :| Owns(left, lk, r) && lk.code == code {
      RepeatedRequest(s, r, sweep, now, ttl, lk);
    } else if granted.Some? {
      FreshRequest(s, r, sweep, now, ttl, code, granted.value);
      NewLease(left, LeaseKey(code, granted.value), r, now);
    } else {
      assert Known(s.accounts, r.recipient) && CodeOf(s.accounts, r.recipient) == code;
    }
  }

  lemma OthersDropLeases(s: State, step: Step, ttl: nat, lk: LeaseKey)
    requires !step.LeaseRequest?
    ensures lk in Next(s, step, ttl).leases ==> lk in s.leases && Next(s, step, ttl).leases[lk] == s.leases[lk]
  {
    match step
    case Route(m, c) => RouteDropsLeases(s, m, c, ttl, lk);
    case Acknowledge(a, now) => AckDropsLeases(s, a, now, ttl, lk);
    case _ =>
  }

  lemma RouteDropsLeases(s: State, m: Message, c: Clock, ttl: nat, lk: LeaseKey)
    ensures var t := Routed(s, m, c, ttl); lk in t.leases ==> lk in s.leases && t.leases[lk] == s.leases[lk]
  {
  }

  lemma AckDropsLeases(s: State, a: Ack, now: nat, ttl: nat, lk: LeaseKey)
    ensures var t := Acknowledged(s, a, now, ttl);
      lk in t.leases ==> lk in s.leases && t.leases[lk] == s.leases[lk]
  {
    var s1 := Prune(s, now, ttl);
    if exists i :: AckAccepted(s1, a, i) {
      var i :| AckAccepted(s1, a, i) && Acknowledged(s, a, now, ttl) == Acked(s1, a, i);
    }
  }

  lemma StepKeepsOne(s: State, step: Step, ttl: nat)
    requires Orderly(s) && OneLeaseEach(s.leases)
    ensures OneLeaseEach(Next(s, step, ttl).leases)
  {
    if step.LeaseRequest? {
      LeasedKeepsOne(s, step.request, step.sweptAt, step.leasedAt, ttl);
    } else {
      forall lk | lk in Next(s, step, ttl).leases
        ensures lk in s.leases && Next(s, step, ttl).leases[lk] == s.leases[lk]
      {
        OthersDropLeases(s, step, ttl, lk);
      }
      FewerLeases(s.leases, Next(s, step, ttl).leases);
    }
  }

  /** In every reachable state a request holds at most one lease of a recipient. */
  lemma {:induction false} ReachableOneLeaseEach(ss: seq<State>, steps: seq<Step>, n: nat, ttl: nat)
    requires Run(ss, steps, ttl) && n < |ss|
    ensures OneLeaseEach(ss[n].leases)
  {
    if n > 0 {
      ReachableOneLeaseEach(ss, steps, n - 1, ttl);
      ReachableOrderly(ss, steps, n - 1, ttl);
      assert StepAt(ss, steps, n - 1, ttl);
      StepKeepsOne(ss[n - 1], steps[n - 1], ttl);
    }
  }

  // ---- Why a lease is gone ------------------------------------------------

  /** The lease has lapsed, and no queued frame was prepared under it. */
  predicate Lapsed(s: State, lk: LeaseKey, lease: Lease, now: nat) {
    lease.createdAt + PREKEY_LEASE_TTL_MS <= now && !InUse(s.books.pending, lk, lease)
  }

  /** A due frame was prepared under the lease. */
  ghost predicate FrameDue(s: State, lk: LeaseKey, lease: Lease, now: nat, ttl: nat) {
    exists k, pf :: Queued(s.books.pending, k, pf) && Carries(pf.frame, lk, lease)
                 && (ttl == 0 || pf.enqueuedAt + ttl <= now)
  }

  /** A sweep takes a lease exactly with a due frame, or when it has lapsed unused by the frames that stay. */
  lemma SweptLease(s: State, now: nat, ttl: nat, lk: LeaseKey)
    requires Orderly(s) && lk in s.leases
    ensures var t := Prune(s, now, ttl);
      lk !in t.leases <==> FrameDue(s, lk, s.leases[lk], now, ttl) || Lapsed(t, lk, s.leases[lk], now)
    ensures lk in Prune(s, now, ttl).leases ==> Prune(s, now, ttl).leases[lk] == s.leases[lk]
  {
    var lease := s.leases[lk];
    ReleasedIff(s.books.pending, now, ttl, lk, lease);
    if FrameDue(s, lk, lease, now, ttl) {
      var k, pf :| Queued(s.books.pending, k, pf) && Carries(pf.frame, lk, lease)
                && (ttl == 0 || pf.enqueuedAt + ttl <= now);
      assert FrameWellFormed(k, pf);
      assert ReleasedBy(s.books.pending, now, ttl, lk, lease, k, pf);
    }
    if Released(s.books.pending, now, ttl, lk, lease) {
      var k, pf :| ReleasedBy(s.books.pending, now, ttl, lk, lease, k, pf);
      assert FrameDue(s, lk, lease, now, ttl);
    }
    PruneKeepsLease(s, now, ttl, lk);
  }
}
