/**
  The attachment tables as the relay keeps them: the records, the index from
  message to record, and the bytes per owner. Every method updates the three
  maps step by step and is proved to leave the index exactly the inverse of
  the records and the counters exactly their sums.
 */
module AttachmentStore {
  import opened Basics
  import opened Totals
  import opened Attachments

  type Bindings = map<BindingKey, Id>
  type Usage = map<Code, nat>

  /** The bindings are the inverse of the records' keys. */
  ghost predicate Indexed(rs: Records, bs: Bindings) {
    && (forall id :: id in rs ==> rs[id].key in bs && bs[rs[id].key] == id)
    && (forall k :: k in bs ==> bs[k] in rs && rs[bs[k]].key == k)
  }

  /** The counter of each owner is the sum of that owner's blobs; no counter is stored as zero. */
  ghost predicate Accounted(rs: Records, us: Usage) {
    forall o :: OwnerAccounted(rs, us, o)
  }

  ghost predicate OwnerAccounted(rs: Records, us: Usage, owner: Code) {
    if owner in us then us[owner] == OwnerBytes(rs, owner) > 0 else OwnerBytes(rs, owner) == 0
  }

  ghost predicate Consistent(rs: Records, bs: Bindings, us: Usage) {
    Indexed(rs, bs) && Accounted(rs, us)
  }

  /** `subtract_attachment_usage` */
  function Subtracted(us: Usage, owner: Code, bytes: nat): Usage {
    if owner !in us then us else if us[owner] <= bytes then us - {owner} else us[owner := us[owner] - bytes]
  }

  /** `remove_attachment_binding_if_matches` */
  function Unbound(bs: Bindings, id: Id, key: BindingKey): Bindings {
    if key in bs && bs[key] == id then bs - {key} else bs
  }

  lemma RemovalConsistent(rs: Records, bs: Bindings, us: Usage, id: Id)
    requires Consistent(rs, bs, us) && id in rs
    ensures Consistent(rs - {id}, Unbound(bs, id, rs[id].key), Subtracted(us, rs[id].key.owner, rs[id].size))
  {
    var less := rs - {id};
    forall o ensures OwnerAccounted(less, Subtracted(us, rs[id].key.owner, rs[id].size), o) {
      assert OwnerAccounted(rs, us, o);
      TotalRemove(rs, Owned(o), id);
    }
  }

  /** Changing a record apart from its key and its size disturbs neither index nor counters. */
  lemma UpdateConsistent(rs: Records, bs: Bindings, us: Usage, id: Id, r: Record)
    requires Consistent(rs, bs, us) && id in rs && r.key == rs[id].key && r.size == rs[id].size
    ensures Consistent(rs[id := r], bs, us)
  {
    var changed := rs[id := r];
    forall o ensures OwnerAccounted(changed, us, o) {
      assert OwnerAccounted(rs, us, o);
      TotalUpdate(rs, Owned(o), id, r);
    }
  }

  lemma InsertConsistent(rs: Records, bs: Bindings, us: Usage, id: Id, r: Record)
    requires Consistent(rs, bs, us) && id !in rs && r.key !in bs && r.size > 0
    ensures var used := if r.key.owner in us then us[r.key.owner] else 0;
      Consistent(rs[id := r], bs[r.key := id], us[r.key.owner := used + r.size])
  {
    var used := if r.key.owner in us then us[r.key.owner] else 0;
    var more, counted := rs[id := r], us[r.key.owner := used + r.size];
    forall o ensures OwnerAccounted(more, counted, o) {
      assert OwnerAccounted(rs, us, o);
      TotalUpdate(rs, Owned(o), id, r);
    }
  }

  lemma BoundIffHasKey(rs: Records, bs: Bindings, key: BindingKey)
    requires Indexed(rs, bs)
    ensures key in bs <==> HasKey(rs, key)
    ensures HasKey(rs, key) ==> IdOf(rs, key) == bs[key]
  {
  }

  /** A sweep that still has some records to visit. */
  ghost predicate PartlySwept(start: Records, rs: Records, todo: set<Id>, now: nat) {
    && todo <= rs.Keys <= start.Keys
    && (forall id :: id in todo ==> rs[id] == start[id])
    && (forall id :: id in start && id !in todo ==> (id in rs <==> Kept(start[id], now)))
    && (forall id :: id in rs && id !in todo ==> rs[id] == LiveClaims(start[id], now))
  }

  ghost predicate PartlyCleared(start: Records, rs: Records, todo: set<Id>, chat: Name) {
    && todo <= rs.Keys <= start.Keys
    && (forall id :: id in rs ==> rs[id] == start[id])
    && (forall id :: id in start && id !in todo ==> (id in rs <==> start[id].key.chat != chat))
  }

  ghost predicate PartlyRevoked(start: Records, rs: Records, todo: set<Id>, chat: Name, code: Code) {
    && todo <= rs.Keys == start.Keys
    && (forall id :: id in start ==> rs[id] == if id !in todo && start[id].key.chat == chat
                                               then WithoutRecipient(start[id], code) else start[id])
  }

  function StaleBindings(rs: Records, bs: Bindings): set<BindingKey> {
    set k | k in bs && bs[k] in rs && rs[bs[k]].key != k
  }

  lemma NoStaleBindings(rs: Records, bs: Bindings)
    requires Indexed(rs, bs)
    ensures StaleBindings(rs, bs) == {}
    ensures (map k | k in bs && bs[k] in rs && rs[bs[k]].key == k :: bs[k]) == bs
  {
  }

  /** Sums one weight over the table, record by record. */
  method SumOver(rs: Records, weight: Record -> nat) returns (sum: nat)
    ensures sum == Total(rs, weight)
  {
    sum := 0;
    var todo := rs;
    while todo != map[]
      invariant sum + Total(todo, weight) == Total(rs, weight)
      decreases |todo|
    {
      var id :| id in todo;
      TotalRemove(todo, weight, id);
      sum := sum + weight(todo[id]);
      todo := todo - {id};
    }
  }

  class Store {
    const limits: Limits
    var records: Records
    var bindings: Bindings
    var usage: Usage

    ghost predicate Valid()
      reads this
    {
      Consistent(records, bindings, usage)
    }

    constructor (limits: Limits)
      ensures Valid() && records == map[] && this.limits == limits
    {
      this.limits := limits;
      records, bindings, usage := map[], map[], map[];
      new;
      forall o ensures OwnerAccounted(records, usage, o) {
        assert OwnerBytes(records, o) == 0;
      }
    }

    method Remove(id: Id)
      requires Valid() && id in records
      modifies this
      ensures Valid() && records == old(records) - {id}
    {
      RemovalConsistent(records, bindings, usage, id);
      var r := records[id];
      records := records - {id};
      bindings := Unbound(bindings, id, r.key);
      usage := Subtracted(usage, r.key.owner, r.size);
    }

    method Change(id: Id, r: Record)
      requires Valid() && id in records && r.key == records[id].key && r.size == records[id].size
      modifies this`records
      ensures Valid() && records == old(records)[id := r]
    {
      UpdateConsistent(records, bindings, usage, id, r);
      records := records[id := r];
    }

    /** `prune_expired_attachments_locked`; between operations no binding is ever stale. */
    method Prune(now: nat)
      requires Valid()
      modifies this
      ensures Valid() && records == Sweep(old(records), now)
    {
      ghost var start := records;
      var todo := records.Keys;
      while todo != {}
        invariant Valid() && PartlySwept(start, records, todo, now)
      {
        var id :| id in todo;
        SweepRecord(id, now);
        todo := todo - {id};
      }
      NoStaleBindings(records, bindings);
      bindings := map k | k in bindings && bindings[k] in records && records[bindings[k]].key == k :: bindings[k];
    }

    method SweepRecord(id: Id, now: nat)
      requires Valid() && id in records
      modifies this
      ensures Valid()
      ensures records == if Kept(old(records)[id], now) then old(records)[id := LiveClaims(old(records)[id], now)]
                         else old(records) - {id}
    {
      var r := LiveClaims(records[id], now);
      Change(id, r);
      var live := if r.published then now < r.expires else r.stagedUntil.Some? && now < r.stagedUntil.value;
      if !live && !(r.published && r.claims != map[]) {
        Remove(id);
        assert records == old(records) - {id};
      }
    }

    /** `commit_upload`, from its recipient check on. */
    method CommitUpload(u: Upload, id: Id, t: UploadReadings) returns (ok: bool)
      requires Valid() && id !in records && u.size > 0
      modifies this
      ensures Valid() && records == Uploaded(old(records), u, id, t, limits)
      ensures ok <==> id in records
    {
      if (u.oneTime || u.deleteAfter) && u.eligible == {} { return false; }
      var r := NewRecord(u, t, limits);
      Prune(t.sweep);
      var used := if u.key.owner in usage then usage[u.key.owner] else 0;
      assert OwnerAccounted(records, usage, u.key.owner);
      var fits := CheckCapacity(u, used);
      if !fits { return false; }
      BoundIffHasKey(records, bindings, u.key);
      if u.key in bindings {
        if bindings[u.key] in records && records[bindings[u.key]].key == u.key { return false; }
        assert false;
      }
      Insert(id, r, used);
      return true;
    }

    method Insert(id: Id, r: Record, used: nat)
      requires Valid() && id !in records && r.key !in bindings && r.size > 0
      requires used == if r.key.owner in usage then usage[r.key.owner] else 0
      modifies this
      ensures Valid() && records == old(records)[id := r]
    {
      InsertConsistent(records, bindings, usage, id, r);
      records := records[id := r];
      bindings := bindings[r.key := id];
      usage := usage[r.key.owner := used + r.size];
    }

    /** The capacity checks of an upload. */
    method CheckCapacity(u: Upload, used: nat) returns (ok: bool)
      requires used == OwnerBytes(records, u.key.owner)
      ensures ok == HasCapacity(records, u, limits)
    {
      var total := SumOver(records, Size());
      var owned := SumOver(records, Counted(u.key.owner));
      ok := total + u.size <= limits.ram && used + u.size <= limits.account
            && |records| < limits.records && owned < limits.accountRecords;
    }

    /** `staged_attachment_for_message`; its branches for a broken index are dead. */
    method Lookup(key: BindingKey, now: nat) returns (staging: Staging)
      requires Valid()
      modifies this
      ensures Valid() && (records, staging) == LookedUp(old(records), key, now)
    {
      BoundIffHasKey(records, bindings, key);
      if key !in bindings { return Nothing; }
      var id := bindings[key];
      if id !in records || records[id].key != key { assert false; }
      staging := StagingOf(records[id], id, now);
      Change(id, LiveClaims(records[id], now));
      if staging == Nothing {
        Remove(id);
        assert records == old(records) - {id};
      }
    }

    /**
      `publish_staged_attachment_checked`. For the id that the index holds it
      publishes or expires the record. For any other id it drops the binding of
      a record that stays, so the index survives exactly when the key is
      unbound or bound to the id presented.
     */
    method Publish(id: Id, key: BindingKey, now: nat) returns (ok: bool)
      requires Valid()
      modifies this
      ensures Valid() <==> (key in old(bindings) ==> old(bindings)[key] == id)
      ensures key in old(bindings) && old(bindings)[key] == id ==>
        id in old(records) && records == Published(old(records), id, now) && ok == CanPublish(old(records)[id], now)
      ensures key in old(bindings) && old(bindings)[key] != id ==>
        !ok && records == old(records) && usage == old(usage) && bindings == old(bindings) - {key}
      ensures key !in old(bindings) ==>
        !ok && records == old(records) && usage == old(usage) && bindings == old(bindings)
    {
      if key !in bindings { return false; }
      if bindings[key] != id {
        assert records[bindings[key]].key == key;
        bindings := bindings - {key};
        assert key !in bindings && records[old(bindings)[key]].key == key;
        return false;
      }
      if id !in records || records[id].key != key { assert false; }
      var r := records[id];
      if r.published { return true; }
      if r.stagedUntil.Some? && now < r.stagedUntil.value && now < r.expires {
        Change(id, r.(published := true, stagedUntil := None));
        return true;
      }
      Remove(id);
      return false;
    }

    /** `rebind_staged_attachment_recipients`; the result is what a rollback needs. */
    method Rebind(id: Id, recipients: set<Code>) returns (saved: Option<Record>)
      requires Valid()
      modifies this`records
      ensures Valid()
      ensures saved == if id in old(records) && CanRebind(old(records)[id], recipients)
                       then Some(old(records)[id]) else None
      ensures records == if saved.Some? then old(records)[id := Rebound(saved.value, recipients)] else old(records)
    {
      if id !in records { return None; }
      var r := records[id];
      if r.published || (Destructive(r) && recipients == {}) { return None; }
      Change(id, Rebound(r, recipients));
      return Some(r);
    }

    /** `rollback_staged_attachment` */
    method Rollback(id: Id, saved: Record)
      requires Valid()
      modifies this
      ensures Valid() && records == RolledBack(old(records), id, saved)
    {
      if id in records && records[id].key == saved.key {
        Change(id, records[id].(eligible := saved.eligible, published := saved.published,
                                stagedUntil := saved.stagedUntil));
        assert bindings[saved.key] == id;
        bindings := bindings[saved.key := id];
      }
    }

    /** The attachment side of sending a group message; `committed` is the message's own fate. */
    method GroupSend(id: Id, key: BindingKey, recipients: set<Code>, now: nat, committed: bool)
      requires Valid() && id in records && records[id].key == key && !records[id].published
      modifies this
      ensures Valid() && records == GroupSent(old(records), id, recipients, now, committed)
    {
      var saved := Rebind(id, recipients);
      if saved.None? { return; }
      assert bindings[key] == id;
      var ok := Publish(id, key, now);
      if !ok || !committed { Rollback(id, saved.value); }
    }

    /** A message send with its attachment, from the lookup on. */
    method SendMessage(s: Send)
      requires Valid()
      modifies this
      ensures Valid() && records == Sent(old(records), s)
    {
      BoundIffHasKey(records, bindings, s.key);
      var staging := Lookup(s.key, s.lookupAt);
      if !staging.Staged? { return; }
      if s.recipients.Some? {
        GroupSend(staging.id, s.key, s.recipients.value, s.publishAt, s.committed);
      } else if s.committed {
        assert records[staging.id].key == s.key;
        var _ := Publish(staging.id, s.key, s.publishAt);
      }
    }

    /** `reserve_attachment_download_inner` */
    method Reserve(id: Id, requester: Code, allowed: bool, reuse: bool, newClaim: Id, t: Readings)
        returns (outcome: Reservation)
      requires Valid() && UniqueClaims(records, id)
      modifies this
      ensures Valid() && (records, outcome) == Reserved(old(records), id, requester, allowed, reuse, newClaim, t)
    {
      Prune(t.sweep);
      if id !in records { return Missing; }
      var r := records[id];
      if !r.published { return Missing; }
      if t.check >= r.expires {
        if r.claims != map[] { return Busy; }
        Remove(id);
        return Missing;
      }
      outcome := ReserveFor(id, requester, allowed, reuse, newClaim, t);
    }

    method ReserveFor(id: Id, requester: Code, allowed: bool, reuse: bool, newClaim: Id, t: Readings)
        returns (outcome: Reservation)
      requires Valid() && id in records && UniqueClaims(records, id)
      modifies this`records
      ensures Valid()
      ensures outcome == ReserveIn(old(records)[id], requester, allowed, reuse, newClaim, t).1
      ensures records == old(records)[id := ReserveIn(old(records)[id], requester, allowed, reuse, newClaim, t).0]
    {
      var r := records[id];
      assert records == records[id := r];
      if requester != r.key.owner && (!allowed || requester !in r.eligible) { return Forbidden; }
      if !Destructive(r) || requester == r.key.owner { return Open; }
      r := Refreshed(r, reuse, t.check);
      Change(id, r);
      if requester in r.completed { return Missing; }
      if c :| c in r.claims && r.claims[c].recipient == requester {
        assert HoldsClaim(r, requester) && ClaimOf(r, requester) == c;
        return if reuse then Claimed(c) else Busy;
      }
      Change(id, r.(claims := r.claims[newClaim := Claim(requester, t.create)]));
      return Claimed(newClaim);
    }

    /** `complete_attachment_download_claim` */
    method Complete(id: Id, requester: Code, claim: Id, now: nat) returns (ok: bool)
      requires Valid()
      modifies this
      ensures Valid() && records == Completed(old(records), id, requester, claim, now)
      ensures ok == Completes(old(records), id, requester, claim, now)
    {
      if id !in records || claim !in records[id].claims { return false; }
      var r := records[id];
      var c := r.claims[claim];
      if c.recipient != requester { return false; }
      r := r.(claims := r.claims - {claim});
      Change(id, r);
      if SatSub(now, c.createdAt) >= CLAIM_TTL_MS { return false; }
      r := r.(completed := r.completed + {c.recipient});
      Change(id, r);
      if r.eligible <= r.completed { Remove(id); }
      return true;
    }

    /** `release_attachment_download_claim` */
    method Release(id: Id, requester: Code, claim: Id) returns (ok: bool)
      requires Valid()
      modifies this`records
      ensures Valid() && records == ClaimReleased(old(records), id, requester, claim)
      ensures ok == (HasClaim(old(records), id, claim) && old(records)[id].claims[claim].recipient == requester)
    {
      if id !in records || claim !in records[id].claims { return false; }
      var r := records[id];
      if r.claims[claim].recipient != requester { return false; }
      Change(id, r.(claims := r.claims - {claim}));
      return true;
    }

    /** `revoke_mls_attachment_access` */
    method Revoke(chat: Name, code: Code)
      requires Valid()
      modifies this`records
      ensures Valid() && records == Revoked(old(records), chat, code)
    {
      ghost var start := records;
      var todo := records.Keys;
      while todo != {}
        invariant Valid() && PartlyRevoked(start, records, todo, chat, code)
      {
        var id :| id in todo;
        if records[id].key.chat == chat { Change(id, WithoutRecipient(records[id], code)); }
        todo := todo - {id};
      }
    }

    /** `delete_owned_attachment` */
    method Delete(id: Id, owner: Code) returns (ok: bool)
      requires Valid()
      modifies this
      ensures Valid() && records == Deleted(old(records), id, owner)
      ensures ok == (id in old(records) && old(records)[id].key.owner == owner)
    {
      if id !in records || records[id].key.owner != owner { return false; }
      Remove(id);
      return true;
    }

    /** `remove_chat_attachments` */
    method RemoveChat(chat: Name)
      requires Valid()
      modifies this
      ensures Valid() && records == ChatRemoved(old(records), chat)
    {
      ghost var start := records;
      var todo := records.Keys;
      while todo != {}
        invariant Valid() && PartlyCleared(start, records, todo, chat)
      {
        var id :| id in todo;
        if records[id].key.chat == chat { Remove(id); }
        todo := todo - {id};
      }
    }
  }

  /** No recipient holds two claims on the record. */
  ghost predicate UniqueClaims(rs: Records, id: Id) {
    id in rs ==> OneEach(rs[id].claims)
  }

  ghost predicate OneEach(claims: map<Id, Claim>) {
    forall c, d :: c in claims && d in claims && claims[c].recipient == claims[d].recipient ==> c == d
  }
}
