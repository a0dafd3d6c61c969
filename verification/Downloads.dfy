/**
  Who may download an attachment: what each reservation is answered, and that
  over whole runs nobody gets a blob without being entitled to it.
 */
module Downloads {
  import opened Basics
  import opened Attachments
  import opened AttachmentLifecycle

  /** The owner may always, others if they are recipients and the platform policy agrees. */
  predicate Entitled(r: Record, requester: Code, allowed: bool) {
    requester == r.key.owner || (requester in r.eligible && allowed)
  }

  /** The record is published and has not expired at the reading of the check. */
  predicate OnOffer(rs: Records, id: Id, now: nat) {
    id in rs && rs[id].published && now < rs[id].expires
  }

  /** A download by this requester uses the record up. */
  predicate UsesUp(r: Record, requester: Code) {
    (r.oneTime || r.deleteAfter) && requester != r.key.owner
  }

  predicate ClaimedBy(r: Record, requester: Code) {
    exists c :: c in r.claims && r.claims[c].recipient == requester
  }

  /** The answers of a reservation on swept records, each with its exact condition. */
  lemma ReservationIff(rs: Records, id: Id, requester: Code, allowed: bool, reuse: bool, newClaim: Id, t: Readings)
    ensures var swept := Sweep(rs, t.sweep);
      var answer := Reserved(rs, id, requester, allowed, reuse, newClaim, t).1;
      var offered := OnOffer(swept, id, t.check);
      && (answer.Forbidden? <==> offered && !Entitled(swept[id], requester, allowed))
      && (answer.Open? <==> offered && Entitled(swept[id], requester, allowed) && !UsesUp(swept[id], requester))
      && (answer.Claimed? <==>
            && offered && Entitled(swept[id], requester, allowed) && UsesUp(swept[id], requester)
            && requester !in swept[id].completed && (reuse || !ClaimedBy(swept[id], requester)))
      && (answer.Busy? <==>
            || (id in swept && swept[id].published && swept[id].expires <= t.check && swept[id].claims != map[])
            || (&& offered && Entitled(swept[id], requester, allowed) && UsesUp(swept[id], requester)
                && requester !in swept[id].completed && !reuse && ClaimedBy(swept[id], requester)))
      && (answer.Missing? <==>
            || id !in swept || !swept[id].published
            || (swept[id].expires <= t.check && swept[id].claims == map[])
            || (&& offered && Entitled(swept[id], requester, allowed) && UsesUp(swept[id], requester)
                && requester in swept[id].completed))
  {
  }

  /** A reservation changes nothing but claims of its record, and removes an expired one without claims. */
  lemma ReservationEffect(rs: Records, id: Id, requester: Code, allowed: bool, reuse: bool, newClaim: Id, t: Readings)
    ensures var swept, after := Sweep(rs, t.sweep), Reserved(rs, id, requester, allowed, reuse, newClaim, t).0;
      && after.Keys == swept.Keys
           - (if id in swept && swept[id].published && swept[id].expires <= t.check && swept[id].claims == map[]
              then {id} else {})
      && (forall i :: i in after && i != id ==> after[i] == swept[i])
      && (id in after ==> after[id] == swept[id].(claims := after[id].claims))
  {
  }

  /** An unused claim of the requester that is still alive is the one that a retry gets again. */
  predicate Retakes(r: Record, requester: Code, claim: Id, now: nat) {
    claim in r.claims && r.claims[claim].recipient == requester && now < r.claims[claim].createdAt + CLAIM_TTL_MS
  }

  /** The claim that a reservation returns is the requester's: the live one it holds, or else a new one. */
  lemma ClaimReturned(rs: Records, id: Id, requester: Code, allowed: bool, reuse: bool, newClaim: Id, t: Readings)
    requires Reserved(rs, id, requester, allowed, reuse, newClaim, t).1.Claimed?
    ensures var (after, answer) := Reserved(rs, id, requester, allowed, reuse, newClaim, t);
      var r := Sweep(rs, t.sweep)[id];
      && id in Sweep(rs, t.sweep) && id in after && answer.claim in after[id].claims
      && after[id].claims[answer.claim].recipient == requester
      && (if reuse && (exists c :: Retakes(r, requester, c, t.check))
          then Retakes(r, requester, answer.claim, t.check)
          else answer.claim == newClaim && after[id].claims[newClaim] == Claim(requester, t.create))
  {
    var r := Sweep(rs, t.sweep)[id];
    var s := Refreshed(r, reuse, t.check);
    if reuse {
      assert forall c :: c in s.claims <==> c in r.claims && t.check < r.claims[c].createdAt + CLAIM_TTL_MS;
      if HoldsClaim(s, requester) {
        assert Retakes(r, requester, ClaimOf(s, requester), t.check);
      }
      if c :| Retakes(r, requester, c, t.check) {
        assert c in s.claims && s.claims[c].recipient == requester;
      }
    }
  }

  // ---- Whole runs ---------------------------------------------------------

  ghost function AnswerAt(ws: seq<World>, steps: seq<Step>, i: nat): Reservation
    requires i < |steps| && i < |ws| && steps[i].Reserve?
  {
    var s := steps[i];
    Reserved(ws[i].records, s.blob, s.requester, s.allowed, s.reuse, s.newClaim, s.readings).1
  }

  /**
    In every run a reservation that is let through is for a record that is then
    published and unexpired, and its requester is the owner or a recipient at
    that moment whom the policy allows. One that claims is for a recipient that
    has not completed yet, and the claim is that recipient's.
   */
  lemma DownloadIsEntitled(ws: seq<World>, steps: seq<Step>, i: nat, lag: nat, limits: Limits)
    requires Run(ws, steps, lag, limits) && i < |steps| && steps[i].Reserve?
    requires AnswerAt(ws, steps, i).Open? || AnswerAt(ws, steps, i).Claimed?
    ensures var s := steps[i];
      && s.blob in ws[i].records
      && var r := ws[i].records[s.blob];
         && r.published && s.readings.check < r.expires && Entitled(r, s.requester, s.allowed)
         && (AnswerAt(ws, steps, i).Claimed? ==>
               && s.requester in r.eligible && s.allowed && s.requester !in r.completed
               && s.blob in ws[i + 1].records
               && AnswerAt(ws, steps, i).claim in ws[i + 1].records[s.blob].claims
               && ws[i + 1].records[s.blob].claims[AnswerAt(ws, steps, i).claim].recipient == s.requester)
  {
    var s := steps[i];
    ReservationIff(ws[i].records, s.blob, s.requester, s.allowed, s.reuse, s.newClaim, s.readings);
    assert StepsTo(ws[i], steps[i], ws[i + 1], lag, limits);
    if AnswerAt(ws, steps, i).Claimed? {
      ClaimReturned(ws[i].records, s.blob, s.requester, s.allowed, s.reuse, s.newClaim, s.readings);
    }
  }

  // ---- Where a claim comes from -------------------------------------------

  predicate HoldsFor(rs: Records, id: Id, claim: Id, code: Code) {
    id in rs && claim in rs[id].claims && rs[id].claims[claim].recipient == code
  }

  /** The step is a reservation of the blob that creates this claim. */
  ghost predicate Claims(w: World, step: Step, id: Id, claim: Id, code: Code) {
    && step.Reserve? && step.blob == id && step.requester == code
    && Reserved(w.records, id, code, step.allowed, step.reuse, step.newClaim, step.readings).1 == Claimed(claim)
  }

  lemma ReserveClaimOrigin(w: World, step: Step, limits: Limits, id: Id, claim: Id, code: Code)
    requires step.Reserve? && HoldsFor(NextRecords(w.records, step, limits), id, claim, code)
    ensures HoldsFor(w.records, id, claim, code) || Claims(w, step, id, claim, code)
  {
    ReservationEffect(w.records, step.blob, step.requester, step.allowed, step.reuse, step.newClaim, step.readings);
  }

  lemma SendClaimOrigin(rs: Records, s: Send, id: Id, claim: Id, code: Code)
    requires HoldsFor(Sent(rs, s), id, claim, code)
    ensures HoldsFor(rs, id, claim, code)
  {
    var (found, staging) := LookedUp(rs, s.key, s.lookupAt);
    assert HoldsFor(found, id, claim, code) ==> HoldsFor(rs, id, claim, code);
  }

  lemma ClaimOrigin(w: World, step: Step, limits: Limits, id: Id, claim: Id, code: Code)
    requires HoldsFor(NextRecords(w.records, step, limits), id, claim, code)
    ensures HoldsFor(w.records, id, claim, code) || Claims(w, step, id, claim, code)
  {
    match step
    case Reserve(_, _, _, _, _, _) => ReserveClaimOrigin(w, step, limits, id, claim, code);
    case SendMessage(s) => SendClaimOrigin(w.records, s, id, claim, code);
    case _ =>
  }

  ghost predicate ClaimsAt(ws: seq<World>, steps: seq<Step>, i: nat, id: Id, claim: Id, code: Code)
    requires i < |steps| && i < |ws|
  {
    Claims(ws[i], steps[i], id, claim, code)
  }

  /** Every claim goes back to a reservation that was answered with it. */
  lemma {:induction false} ClaimWasReserved(ws: seq<World>, steps: seq<Step>, n: nat, lag: nat, limits: Limits,
                                            id: Id, claim: Id, code: Code)
    requires Run(ws, steps, lag, limits) && n < |ws| && HoldsFor(ws[n].records, id, claim, code)
    ensures exists i :: 0 <= i < n && ClaimsAt(ws, steps, i, id, claim, code)
  {
    assert n > 0;
    assert StepsTo(ws[n - 1], steps[n - 1], ws[n - 1 + 1], lag, limits);
    ClaimOrigin(ws[n - 1], steps[n - 1], limits, id, claim, code);
    if HoldsFor(ws[n - 1].records, id, claim, code) {
      ClaimWasReserved(ws, steps, n - 1, lag, limits, id, claim, code);
    } else {
      assert ClaimsAt(ws, steps, n - 1, id, claim, code);
    }
  }

  /** Whoever completes a download was let through before, entitled, with the claim presented. */
  lemma CompletionWasEntitled(ws: seq<World>, steps: seq<Step>, n: nat, lag: nat, limits: Limits) returns (i: nat)
    requires Run(ws, steps, lag, limits) && n < |steps| && Finishes(ws[n].records, steps[n])
    ensures i < n && ClaimsAt(ws, steps, i, steps[n].blob, steps[n].claim, steps[n].requester)
    ensures var id := steps[n].blob;
      id in ws[i].records && steps[n].requester in ws[i].records[id].eligible && steps[i].allowed
  {
    ClaimWasReserved(ws, steps, n, lag, limits, steps[n].blob, steps[n].claim, steps[n].requester);
    i :| 0 <= i < n && ClaimsAt(ws, steps, i, steps[n].blob, steps[n].claim, steps[n].requester);
    DownloadIsEntitled(ws, steps, i, lag, limits);
  }
}
