/**
  The tables of the account desk entry by entry: exactly when a handshake, a
  credential request, a capability, an account, a session or a transport session
  is there after a step, and what every session of a run goes back to.
 */
module DeskTables {
  import opened Basics
  import opened Capabilities

  // ---- What a step amounts to ---------------------------------------------

  predicate Fresh(d: Desk, h: HandshakeId, now: nat) {
    h in d.handshakes && now < d.handshakes[h].createdAt + OPAQUE_HANDSHAKE_TTL_MS
  }

  function FreshIds(d: Desk, now: nat): set<HandshakeId> {
    set h | h in d.handshakes && Fresh(d, h, now)
  }

  /** The capability is unused and, if it is dated, its expiry in seconds lies ahead. */
  predicate Good(d: Desk, code: Code, now: nat) {
    code in d.available && (code in d.expiries ==> now < d.expiries[code] * 1000)
  }

  predicate IsOverdue(d: Desk, t: Token, now: nat, limit: nat) {
    t in d.sessions && SatSub(now, d.sessions[t].lastActivity) >= limit
  }

  predicate InUse(d: Desk, code: Code, now: nat, limit: nat) {
    exists t :: t in d.sessions && d.sessions[t].code == code && !IsOverdue(d, t, now, limit)
  }

  predicate Sweeps(s: Step) {
    s.Begin? || s.FinishRegistration? || s.FinishLogin? || s.FinishOpaque?
  }

  predicate Finishing(s: Step) {
    s.FinishRegistration? || s.FinishLogin? || s.FinishOpaque?
  }

  /** The step begins a handshake: a known code, no session in use, both verdicts, room among the fresh ones. */
  predicate Opens(d: Desk, s: Step, limit: nat) {
    && s.Begin? && (s.code in d.accounts || Good(d, s.code, s.now)) && s.allowed && s.crypto
    && !InUse(d, s.code, s.now, limit) && |FreshIds(d, s.now)| < MAX_OPAQUE_HANDSHAKES
  }

  /** The step finishes this fresh handshake as a registration of its code. */
  predicate Claims(d: Desk, s: Step, code: Code) {
    && ((s.FinishRegistration? && s.id in d.requests) || (s.FinishOpaque? && s.registering))
    && Fresh(d, s.id, s.now) && d.handshakes[s.id] == Registration(code, d.handshakes[s.id].createdAt)
    && code !in d.accounts
  }

  /** The step makes an account of the code: a valid registration of a good capability. */
  predicate Admits(d: Desk, s: Step, code: Code) {
    Claims(d, s, code) && Good(d, code, s.now) && s.proof && s.name.Some?
  }

  /** The step proves the password of the account with this code. */
  predicate Proves(d: Desk, s: Step, code: Code) {
    && ((s.FinishLogin? && s.crypto) || (s.FinishOpaque? && !s.registering && s.proof))
    && Fresh(d, s.id, s.now) && d.handshakes[s.id] == Login(code, d.handshakes[s.id].createdAt)
  }

  /** The step issues a session to the code: a valid login without a session in use, or a registration with one. */
  predicate Issues(d: Desk, s: Step, code: Code, limit: nat) {
    || (Proves(d, s, code) && code in d.accounts && !InUse(d, code, s.now, limit))
    || (s.FinishOpaque? && Admits(d, s, code))
  }

  // ---- The entries after a step -------------------------------------------

  predicate HandshakeAfter(d: Desk, s: Step, limit: nat, h: HandshakeId, v: Handshake) {
    || (h in d.handshakes && v == d.handshakes[h] && !s.Wipe?
        && (Sweeps(s) ==> Fresh(d, h, s.now)) && (Finishing(s) ==> s.id != h))
    || (Opens(d, s, limit) && h == s.newId
        && v == if s.code in d.accounts then Login(s.code, s.now) else Registration(s.code, s.now))
    || (s.FinishRegistration? && h == s.nextId && |FreshIds(d, s.now) - {s.id}| < MAX_OPAQUE_HANDSHAKES
        && v.Login? && v.createdAt == s.now && Admits(d, s, v.code))
  }

  predicate RequestAfter(d: Desk, s: Step, limit: nat, h: HandshakeId) {
    || (h in d.requests && !s.Wipe? && (Sweeps(s) ==> Fresh(d, h, s.now))
        && !(s.FinishRegistration? && s.id == h && d.handshakes[h].Registration?))
    || (Opens(d, s, limit) && h == s.newId && s.request && s.code !in d.accounts)
  }

  /** The step looks at the capability, which drops it if its time is up. */
  predicate Examines(d: Desk, s: Step, code: Code) {
    (s.Begin? && s.code == code && code !in d.accounts) || Claims(d, s, code)
  }

  predicate Loses(d: Desk, s: Step, code: Code) {
    s.Wipe? || Admits(d, s, code) || (Examines(d, s, code) && code in d.available && !Good(d, code, s.now))
  }

  predicate AccountAfter(d: Desk, s: Step, code: Code, name: Name) {
    || (code in d.accounts && d.accounts[code] == name && !s.Wipe?)
    || (Admits(d, s, code) && s.name == Some(name))
  }

  /** The step looks through all sessions for overdue ones. */
  predicate Reviews(d: Desk, s: Step) {
    || s.SweepSessions?
    || (s.Begin? && s.allowed && (s.code in d.accounts || Good(d, s.code, s.now)))
    || (Finishing(s) && s.id in d.handshakes && Proves(d, s, d.handshakes[s.id].code))
  }

  predicate Ends(d: Desk, s: Step, limit: nat, t: Token)
    requires t in d.sessions
  {
    || s.Wipe? || s == Logout(t) || s == Invalidate(d.sessions[t].code)
    || ((Reviews(d, s) || (s.Touch? && s.token == t)) && IsOverdue(d, t, s.now, limit))
  }

  predicate SessionAfter(d: Desk, s: Step, limit: nat, t: Token, v: Session) {
    || (t in d.sessions && !Ends(d, s, limit, t) && v.code == d.sessions[t].code
        && v.lastActivity == if s.Touch? && s.token == t && s.touch then s.now else d.sessions[t].lastActivity)
    || ((s.FinishLogin? || s.FinishOpaque?) && t == s.token && Issues(d, s, v.code, limit) && v.lastActivity == s.now)
  }

  predicate TransportAfter(d: Desk, s: Step, limit: nat, x: TransportId, t: Token) {
    var issued := s.FinishLogin? && s.id in d.handshakes && Issues(d, s, d.handshakes[s.id].code, limit);
    if issued && x == s.transport then t == s.token
    else
      && x in d.transports && d.transports[x] == t && !s.Wipe? && s != DropTransports(t)
      && (t in d.sessions && Ends(d, s, limit, t) ==> s.Touch?)
      && (s.SweepSessions? ==> t in d.sessions)
  }

  // ---- The handshakes -----------------------------------------------------

  lemma LiveIsFresh(d: Desk, now: nat)
    ensures LiveHandshakes(d.handshakes, now).Keys == FreshIds(d, now)
    ensures |LiveHandshakes(d.handshakes, now)| == |FreshIds(d, now)|
    ensures forall h :: Fresh(d, h, now) ==> LiveHandshakes(d.handshakes, now)[h] == d.handshakes[h]
  {
    assert |LiveHandshakes(d.handshakes, now)| == |LiveHandshakes(d.handshakes, now).Keys|;
  }

  lemma GoodIsLive(d: Desk, code: Code, now: nat)
    ensures CapabilityLive(d, code, now) <==> Good(d, code, now)
  {
    LiveIffAhead(d, code, now);
  }

  lemma UsedIsSession(d: Desk, code: Code, now: nat, limit: nat)
    ensures HasSession(WithoutExpired(d, now, limit), code) <==> InUse(d, code, now, limit)
  {
    ActiveMeansInSession(d, code, now, limit);
  }

  /** The table holds exactly this handshake under the id. */
  predicate HasHandshake(e: Desk, h: HandshakeId, v: Handshake) {
    h in e.handshakes && e.handshakes[h] == v
  }

  /** The helpers of a start in the terms above. */
  lemma BeginFacts(d: Desk, s: Step, limit: nat)
    requires s.Begin?
    ensures LiveHandshakes(d.handshakes, s.now).Keys == FreshIds(d, s.now)
    ensures |LiveHandshakes(d.handshakes, s.now)| == |FreshIds(d, s.now)|
    ensures forall h :: Fresh(d, h, s.now) ==> LiveHandshakes(d.handshakes, s.now)[h] == d.handshakes[h]
    ensures LiveHandshakes(LiveHandshakes(d.handshakes, s.now), s.now) == LiveHandshakes(d.handshakes, s.now)
    ensures CapabilityLive(Pruned(d, s.now), s.code, s.now) <==> Good(d, s.code, s.now)
    ensures var d1 := Pruned(d, s.now);
      var d2 := if s.code in d1.accounts then d1 else Checked(d1, s.code, s.now);
      HasSession(WithoutExpired(d2, s.now, limit), s.code) <==> InUse(d, s.code, s.now, limit)
  {
    LiveIsFresh(d, s.now);
    PruneOnce(d, s.now);
    var d1 := Pruned(d, s.now);
    GoodIsLive(d1, s.code, s.now);
    var d2 := if s.code in d1.accounts then d1 else Checked(d1, s.code, s.now);
    UsedIsSession(d2, s.code, s.now, limit);
  }

  /** A finish that finds its handshake, and the desk from which it goes on. */
  lemma FinishFacts(d: Desk, s: Step, limit: nat)
    requires Finishing(s)
    ensures var p := Pruned(d, s.now);
      && (forall h :: h in p.handshakes <==> Fresh(d, h, s.now))
      && (forall h :: h in p.handshakes ==> p.handshakes[h] == d.handshakes[h])
      && (forall h :: h in p.requests <==> h in d.requests && Fresh(d, h, s.now))
  {
  }

  /** What the checks of a finish come to, for the code of its handshake. */
  lemma CodeFacts(d: Desk, s: Step, limit: nat, code: Code)
    requires Finishing(s)
    ensures var p := Pruned(d, s.now);
      var r := Removed(p, s.id);
      && (CapabilityLive(p, code, s.now) <==> Good(d, code, s.now))
      && (CapabilityLive(r, code, s.now) <==> Good(d, code, s.now))
      && (HasSession(WithoutExpired(r, s.now, limit), code) <==> InUse(d, code, s.now, limit))
  {
    GoodIsLive(Pruned(d, s.now), code, s.now);
    GoodIsLive(Removed(Pruned(d, s.now), s.id), code, s.now);
    UsedIsSession(Removed(Pruned(d, s.now), s.id), code, s.now, limit);
  }

  lemma EnrolsIsAdmits(d: Desk, s: Step, limit: nat, code: Code)
    requires Finishing(s)
    ensures Enrols(d, s) && EnrolledCode(d, s) == code <==> Admits(d, s, code)
  {
    FinishFacts(d, s, limit);
    CodeFacts(d, s, limit, code);
  }

  lemma BeginHandshake(d: Desk, s: Step, limit: nat, h: HandshakeId, v: Handshake)
    requires s.Begin? && s.newId !in d.handshakes
    ensures HandshakeAfter(d, s, limit, h, v) <==> HasHandshake(NextDesk(d, s, limit), h, v)
  {
    BeginFacts(d, s, limit);
  }

  lemma BeginRequest(d: Desk, s: Step, limit: nat, h: HandshakeId)
    requires s.Begin? && s.newId !in d.handshakes
    ensures RequestAfter(d, s, limit, h) <==> h in NextDesk(d, s, limit).requests
  {
    BeginFacts(d, s, limit);
  }

  /** Room for the login handshake that follows a registration. */
  lemma RoomAfterRemoval(d: Desk, s: Step, q: Desk)
    requires s.FinishRegistration? && q.handshakes == Removed(Pruned(d, s.now), s.id).handshakes
    ensures HasHandshakeRoom(q, s.now) <==> |FreshIds(d, s.now) - {s.id}| < MAX_OPAQUE_HANDSHAKES
    ensures LiveHandshakes(q.handshakes, s.now) == q.handshakes
  {
    LiveIsFresh(d, s.now);
    var live := LiveHandshakes(q.handshakes, s.now);
    assert live == q.handshakes;
    assert live.Keys == FreshIds(d, s.now) - {s.id};
    assert |live| == |live.Keys|;
  }

  /** A registration that fails leaves the fresh handshakes but its own. */
  lemma RefusedRegistration(d: Desk, s: Step, limit: nat, h: HandshakeId)
    requires s.FinishRegistration? && !Enrols(d, s)
    ensures var e := NextDesk(d, s, limit);
      && (h in e.handshakes <==> Fresh(d, h, s.now) && h != s.id)
      && (h in e.handshakes ==> e.handshakes[h] == d.handshakes[h])
  {
    FinishFacts(d, s, limit);
  }

  lemma AcceptedRegistration(d: Desk, s: Step, limit: nat, h: HandshakeId)
    requires s.FinishRegistration? && Enrols(d, s)
    ensures var e := NextDesk(d, s, limit);
      var room := |FreshIds(d, s.now) - {s.id}| < MAX_OPAQUE_HANDSHAKES;
      && (h in e.handshakes <==> (Fresh(d, h, s.now) && h != s.id) || (room && h == s.nextId))
      && (h in e.handshakes ==>
            e.handshakes[h] == if room && h == s.nextId then Login(EnrolledCode(d, s), s.now) else d.handshakes[h])
  {
    FinishFacts(d, s, limit);
    var code, r := d.handshakes[s.id].code, Removed(Pruned(d, s.now), s.id);
    var q := r.(requests := (set x | x in r.requests && x != s.id));
    RoomAfterRemoval(d, s, Enrolled(q, code, s.name.value));
  }

  lemma RegistrationHandshake(d: Desk, s: Step, limit: nat, h: HandshakeId, v: Handshake)
    requires s.FinishRegistration? && s.nextId !in d.handshakes
    ensures HandshakeAfter(d, s, limit, h, v) <==> HasHandshake(NextDesk(d, s, limit), h, v)
  {
    EnrolsIsAdmits(d, s, limit, v.code);
    if Enrols(d, s) {
      EnrolsIsAdmits(d, s, limit, EnrolledCode(d, s));
      AcceptedRegistration(d, s, limit, h);
    } else {
      RefusedRegistration(d, s, limit, h);
    }
  }

  lemma RegistrationRequest(d: Desk, s: Step, limit: nat, h: HandshakeId)
    requires s.FinishRegistration?
    ensures RequestAfter(d, s, limit, h) <==> h in NextDesk(d, s, limit).requests
  {
    FinishFacts(d, s, limit);
  }

  lemma LoginHandshake(d: Desk, s: Step, limit: nat, h: HandshakeId, v: Handshake)
    requires s.FinishLogin?
    ensures HandshakeAfter(d, s, limit, h, v) <==> HasHandshake(NextDesk(d, s, limit), h, v)
    ensures RequestAfter(d, s, limit, h) <==> h in NextDesk(d, s, limit).requests
  {
    FinishFacts(d, s, limit);
  }

  /** The path without transport sessions removes its handshake and touches no request. */
  lemma OpaqueRemoves(d: Desk, s: Step, limit: nat)
    requires s.FinishOpaque?
    ensures var e, p := NextDesk(d, s, limit), Pruned(d, s.now);
      e.handshakes == Removed(p, s.id).handshakes && e.requests == p.requests
  {
    assert s.id !in Pruned(d, s.now).handshakes ==>
           Removed(Pruned(d, s.now), s.id).handshakes == Pruned(d, s.now).handshakes;
  }

  lemma OpaqueHandshake(d: Desk, s: Step, limit: nat, h: HandshakeId, v: Handshake)
    requires s.FinishOpaque?
    ensures HandshakeAfter(d, s, limit, h, v) <==> HasHandshake(NextDesk(d, s, limit), h, v)
    ensures RequestAfter(d, s, limit, h) <==> h in NextDesk(d, s, limit).requests
  {
    FinishFacts(d, s, limit);
    OpaqueRemoves(d, s, limit);
  }

  /** Exactly these handshakes and credential requests are there after a step. */
  lemma HandshakesExact(d: Desk, s: Step, limit: nat, h: HandshakeId, v: Handshake)
    requires s.Begin? ==> s.newId !in d.handshakes
    requires s.FinishRegistration? ==> s.nextId !in d.handshakes
    ensures HandshakeAfter(d, s, limit, h, v) <==> HasHandshake(NextDesk(d, s, limit), h, v)
    ensures RequestAfter(d, s, limit, h) <==> h in NextDesk(d, s, limit).requests
  {
    match s
    case Begin(_, _, _, _, _, _) =>
      BeginHandshake(d, s, limit, h, v);
      BeginRequest(d, s, limit, h);
    case FinishRegistration(_, _, _, _, _) =>
      RegistrationHandshake(d, s, limit, h, v);
      RegistrationRequest(d, s, limit, h);
    case FinishLogin(_, _, _, _, _) => LoginHandshake(d, s, limit, h, v);
    case FinishOpaque(_, _, _, _, _, _) => OpaqueHandshake(d, s, limit, h, v);
    case _ =>
  }

  // ---- The codes ----------------------------------------------------------

  ghost predicate CodesAfter(d: Desk, s: Step, e: Desk, code: Code) {
    && (code in e.available <==> code in d.available && !Loses(d, s, code))
    && (code in e.expiries <==> code in d.expiries && !Loses(d, s, code))
    && (code in e.expiries ==> e.expiries[code] == d.expiries[code])
    && (forall name :: AccountAfter(d, s, code, name) <==> code in e.accounts && e.accounts[code] == name)
  }

  lemma BeginCodes(d: Desk, s: Step, limit: nat, code: Code)
    requires s.Begin?
    ensures CodesAfter(d, s, NextDesk(d, s, limit), code)
  {
    GoodIsLive(Pruned(d, s.now), s.code, s.now);
  }

  /** A registration that fails drops at most the capability it finds expired. */
  lemma RefusedCodes(d: Desk, s: Step, limit: nat)
    requires s.FinishRegistration? && !Enrols(d, s)
    ensures var e := NextDesk(d, s, limit);
      && e.accounts == d.accounts
      && if Fresh(d, s.id, s.now) && Claims(d, s, d.handshakes[s.id].code) then
           var x := Checked(d, d.handshakes[s.id].code, s.now); e.available == x.available && e.expiries == x.expiries
         else e.available == d.available && e.expiries == d.expiries
  {
    FinishFacts(d, s, limit);
  }

  lemma RegistrationCodes(d: Desk, s: Step, limit: nat, code: Code)
    requires s.FinishRegistration?
    ensures CodesAfter(d, s, NextDesk(d, s, limit), code)
  {
    EnrolsIsAdmits(d, s, limit, code);
    GoodIsLive(d, code, s.now);
    if Enrols(d, s) {
      FinishFacts(d, s, limit);
    } else {
      RefusedCodes(d, s, limit);
    }
  }

  lemma RefusedOpaqueCodes(d: Desk, s: Step, limit: nat)
    requires s.FinishOpaque? && s.registering && !Enrols(d, s)
    ensures var e := NextDesk(d, s, limit);
      && e.accounts == d.accounts
      && if Fresh(d, s.id, s.now) && Claims(d, s, d.handshakes[s.id].code) then
           var x := Checked(d, d.handshakes[s.id].code, s.now); e.available == x.available && e.expiries == x.expiries
         else e.available == d.available && e.expiries == d.expiries
  {
    FinishFacts(d, s, limit);
  }

  lemma OpaqueCodes(d: Desk, s: Step, limit: nat, code: Code)
    requires s.FinishOpaque? && s.registering
    ensures CodesAfter(d, s, NextDesk(d, s, limit), code)
  {
    EnrolsIsAdmits(d, s, limit, code);
    GoodIsLive(d, code, s.now);
    if Enrols(d, s) {
      FinishFacts(d, s, limit);
    } else {
      RefusedOpaqueCodes(d, s, limit);
    }
  }

  lemma OpaqueLoginCodes(d: Desk, s: Step, limit: nat, code: Code)
    requires s.FinishOpaque? && !s.registering
    ensures CodesAfter(d, s, NextDesk(d, s, limit), code)
  {
  }

  lemma LoginCodes(d: Desk, s: Step, limit: nat, code: Code)
    requires s.FinishLogin?
    ensures CodesAfter(d, s, NextDesk(d, s, limit), code)
  {
  }

  /** Exactly these capabilities and accounts are there after a step. */
  lemma CodesExact(d: Desk, s: Step, limit: nat, code: Code)
    ensures CodesAfter(d, s, NextDesk(d, s, limit), code)
  {
    match s
    case Begin(_, _, _, _, _, _) => BeginCodes(d, s, limit, code);
    case FinishRegistration(_, _, _, _, _) => RegistrationCodes(d, s, limit, code);
    case FinishLogin(_, _, _, _, _) => LoginCodes(d, s, limit, code);
    case FinishOpaque(_, registering, _, _, _, _) =>
      if registering { OpaqueCodes(d, s, limit, code); } else { OpaqueLoginCodes(d, s, limit, code); }
    case _ =>
  }

  // ---- The sessions -------------------------------------------------------

  predicate HasSessionAs(e: Desk, t: Token, v: Session) {
    t in e.sessions && e.sessions[t] == v
  }

  predicate HasTransport(e: Desk, x: TransportId, t: Token) {
    x in e.transports && e.transports[x] == t
  }

  /** A start changes sessions and transports only by its review of the sessions. */
  lemma StartedSessions(d: Desk, s: Step, limit: nat)
    requires s.Begin?
    ensures var e, w := NextDesk(d, s, limit), WithoutExpired(d, s.now, limit);
      if Reviews(d, s) then e.sessions == w.sessions && e.transports == w.transports
      else e.sessions == d.sessions && e.transports == d.transports
  {
    var d1 := Pruned(d, s.now);
    GoodIsLive(d1, s.code, s.now);
    var d2 := if s.code in d1.accounts then d1 else Checked(d1, s.code, s.now);
    ReviewIsSame(d, d2, s.now, limit);
  }

  lemma ReviewIsSame(d: Desk, e: Desk, now: nat, limit: nat)
    requires e.sessions == d.sessions && e.transports == d.transports
    ensures var v, w := WithoutExpired(d, now, limit), WithoutExpired(e, now, limit);
      v.sessions == w.sessions && v.transports == w.transports
  {
  }

  lemma BeginSessions(d: Desk, s: Step, limit: nat, t: Token, v: Session)
    requires s.Begin?
    ensures SessionAfter(d, s, limit, t, v) <==> HasSessionAs(NextDesk(d, s, limit), t, v)
  {
    StartedSessions(d, s, limit);
  }

  /** A session issued to a code without a session in use leaves the sessions that are not overdue. */
  lemma IssuedSessions(r: Desk, code: Code, token: Token, transport: Option<TransportId>, now: nat, limit: nat,
                       t: Token)
    requires token !in r.sessions && !HasSession(WithoutExpired(r, now, limit), code)
    ensures var e := Issued(WithoutExpired(r, now, limit), code, token, transport, now);
      && (t in e.sessions <==> t == token || (t in r.sessions && !IsOverdue(r, t, now, limit)))
      && (t in e.sessions ==> e.sessions[t] == if t == token then Session(code, now) else r.sessions[t])
  {
  }

  lemma LoginSessions(d: Desk, s: Step, limit: nat, t: Token, v: Session)
    requires s.FinishLogin? && s.token !in d.sessions
    ensures SessionAfter(d, s, limit, t, v) <==> HasSessionAs(NextDesk(d, s, limit), t, v)
  {
    FinishFacts(d, s, limit);
    if Fresh(d, s.id, s.now) {
      var code, r := d.handshakes[s.id].code, Removed(Pruned(d, s.now), s.id);
      CodeFacts(d, s, limit, code);
      if !InUse(d, code, s.now, limit) { IssuedSessions(r, code, s.token, Some(s.transport), s.now, limit, t); }
    }
  }

  /** A session issued with a registration joins the others. */
  lemma EnrolledSessions(r: Desk, code: Code, name: Name, token: Token, now: nat, leaving: set<Token>, t: Token)
    requires SessionsSingle(r, leaving) && code !in r.accounts && token !in r.sessions
    ensures var e := Issued(Enrolled(r, code, name), code, token, None, now);
      && (t in e.sessions <==> t == token || t in r.sessions)
      && (t in e.sessions ==> e.sessions[t] == if t == token then Session(code, now) else r.sessions[t])
  {
  }

  lemma OpaqueLoginSessions(d: Desk, s: Step, limit: nat, t: Token, v: Session)
    requires s.FinishOpaque? && !s.registering && s.token !in d.sessions
    ensures SessionAfter(d, s, limit, t, v) <==> HasSessionAs(NextDesk(d, s, limit), t, v)
  {
    FinishFacts(d, s, limit);
    if Fresh(d, s.id, s.now) {
      var code, r := d.handshakes[s.id].code, Removed(Pruned(d, s.now), s.id);
      CodeFacts(d, s, limit, code);
      if !InUse(d, code, s.now, limit) { IssuedSessions(r, code, s.token, None, s.now, limit, t); }
    }
  }

  lemma OpaqueRegistrationSessions(d: Desk, s: Step, limit: nat, leaving: set<Token>, t: Token, v: Session)
    requires s.FinishOpaque? && s.registering && s.token !in d.sessions && SessionsSingle(d, leaving)
    ensures SessionAfter(d, s, limit, t, v) <==> HasSessionAs(NextDesk(d, s, limit), t, v)
  {
    FinishFacts(d, s, limit);
    EnrolsIsAdmits(d, s, limit, v.code);
    if Fresh(d, s.id, s.now) {
      var code, r := d.handshakes[s.id].code, Removed(Pruned(d, s.now), s.id);
      CodeFacts(d, s, limit, code);
      EnrolsIsAdmits(d, s, limit, code);
      if s.name.Some? && code !in r.accounts { EnrolledSessions(r, code, s.name.value, s.token, s.now, leaving, t); }
    }
  }

  /** Exactly these sessions are there after a step, with these last activities. */
  lemma SessionsExact(d: Desk, s: Step, limit: nat, leaving: set<Token>, t: Token, v: Session)
    requires SessionsSingle(d, leaving) && (s.FinishLogin? || s.FinishOpaque? ==> s.token !in d.sessions)
    ensures SessionAfter(d, s, limit, t, v) <==> HasSessionAs(NextDesk(d, s, limit), t, v)
  {
    match s
    case Begin(_, _, _, _, _, _) => BeginSessions(d, s, limit, t, v);
    case FinishLogin(_, _, _, _, _) => LoginSessions(d, s, limit, t, v);
    case FinishOpaque(_, registering, _, _, _, _) =>
      if registering { OpaqueRegistrationSessions(d, s, limit, leaving, t, v); }
      else { OpaqueLoginSessions(d, s, limit, t, v); }
    case FinishRegistration(_, _, _, _, _) => RegistrationSessions(d, s, limit, t, v);
    case _ => OtherSessions(d, s, limit, t, v);
  }

  lemma RegistrationSessions(d: Desk, s: Step, limit: nat, t: Token, v: Session)
    requires s.FinishRegistration?
    ensures SessionAfter(d, s, limit, t, v) <==> HasSessionAs(NextDesk(d, s, limit), t, v)
  {
  }

  lemma OtherSessions(d: Desk, s: Step, limit: nat, t: Token, v: Session)
    requires !Sweeps(s)
    ensures SessionAfter(d, s, limit, t, v) <==> HasSessionAs(NextDesk(d, s, limit), t, v)
  {
  }

  // ---- The transport sessions ---------------------------------------------

  lemma BeginTransports(d: Desk, s: Step, limit: nat, x: TransportId, t: Token)
    requires s.Begin?
    ensures TransportAfter(d, s, limit, x, t) <==> HasTransport(NextDesk(d, s, limit), x, t)
  {
    StartedSessions(d, s, limit);
  }

  lemma IssuedTransports(r: Desk, code: Code, token: Token, transport: Option<TransportId>, now: nat, limit: nat,
                         x: TransportId)
    requires token !in r.sessions && !HasSession(WithoutExpired(r, now, limit), code)
    ensures var e := Issued(WithoutExpired(r, now, limit), code, token, transport, now);
      if transport == Some(x) then x in e.transports && e.transports[x] == token
      else
        && (x in e.transports <==> x in r.transports && !IsOverdue(r, r.transports[x], now, limit))
        && (x in e.transports ==> e.transports[x] == r.transports[x])
  {
  }

  lemma LoginTransports(d: Desk, s: Step, limit: nat, x: TransportId, t: Token)
    requires s.FinishLogin? && s.token !in d.sessions
    ensures TransportAfter(d, s, limit, x, t) <==> HasTransport(NextDesk(d, s, limit), x, t)
  {
    FinishFacts(d, s, limit);
    if Fresh(d, s.id, s.now) {
      var code, r := d.handshakes[s.id].code, Removed(Pruned(d, s.now), s.id);
      CodeFacts(d, s, limit, code);
      if !InUse(d, code, s.now, limit) { IssuedTransports(r, code, s.token, Some(s.transport), s.now, limit, x); }
    }
  }

  lemma OpaqueTransports(d: Desk, s: Step, limit: nat, leaving: set<Token>, x: TransportId, t: Token)
    requires s.FinishOpaque? && s.token !in d.sessions && SessionsSingle(d, leaving)
    ensures TransportAfter(d, s, limit, x, t) <==> HasTransport(NextDesk(d, s, limit), x, t)
  {
    FinishFacts(d, s, limit);
    if Fresh(d, s.id, s.now) {
      var code, r := d.handshakes[s.id].code, Removed(Pruned(d, s.now), s.id);
      CodeFacts(d, s, limit, code);
      if !InUse(d, code, s.now, limit) { IssuedTransports(r, code, s.token, None, s.now, limit, x); }
    }
  }

  /** Exactly these transport sessions are there after a step. */
  lemma TransportsExact(d: Desk, s: Step, limit: nat, leaving: set<Token>, x: TransportId, t: Token)
    requires SessionsSingle(d, leaving) && (s.FinishLogin? || s.FinishOpaque? ==> s.token !in d.sessions)
    ensures TransportAfter(d, s, limit, x, t) <==> HasTransport(NextDesk(d, s, limit), x, t)
  {
    match s
    case Begin(_, _, _, _, _, _) => BeginTransports(d, s, limit, x, t);
    case FinishLogin(_, _, _, _, _) => LoginTransports(d, s, limit, x, t);
    case FinishOpaque(_, _, _, _, _, _) => OpaqueTransports(d, s, limit, leaving, x, t);
    case FinishRegistration(_, _, _, _, _) => RegistrationTransports(d, s, limit, x, t);
    case _ => OtherTransports(d, s, limit, x, t);
  }

  lemma RegistrationTransports(d: Desk, s: Step, limit: nat, x: TransportId, t: Token)
    requires s.FinishRegistration?
    ensures TransportAfter(d, s, limit, x, t) <==> HasTransport(NextDesk(d, s, limit), x, t)
  {
  }

  lemma OtherTransports(d: Desk, s: Step, limit: nat, x: TransportId, t: Token)
    requires !Sweeps(s)
    ensures TransportAfter(d, s, limit, x, t) <==> HasTransport(NextDesk(d, s, limit), x, t)
  {
  }

  // ---- The answers --------------------------------------------------------

  /** A start succeeds exactly when it begins a handshake. */
  lemma StartIff(d: Desk, s: Step, limit: nat)
    requires s.Begin?
    ensures CanStart(d, s.code, s.allowed, s.crypto, s.now, limit) <==> Opens(d, s, limit)
  {
    LiveIsFresh(d, s.now);
    GoodIsLive(d, s.code, s.now);
  }

  /** A login succeeds exactly when it issues a session to the code of its handshake. */
  lemma LoginIff(d: Desk, s: Step, limit: nat)
    requires s.FinishLogin? || (s.FinishOpaque? && !s.registering)
    ensures LogsIn(d, s.id, if s.FinishLogin? then s.crypto else s.proof, s.now, limit) <==>
            s.id in d.handshakes && Issues(d, s, d.handshakes[s.id].code, limit)
  {
    FinishFacts(d, s, limit);
  }

  /** Resolving a token drops an overdue session with its transports, and otherwise at most dates its last activity. */
  lemma ResolvedTables(d: Desk, token: Token, touch: bool, now: nat, limit: nat)
    ensures var e := Resolved(d, token, touch, now, limit);
      && (forall t :: t in e.sessions <==> t in d.sessions && !(t == token && IsOverdue(d, t, now, limit)))
      && (forall t :: t in e.sessions ==>
            e.sessions[t] == if t == token && touch then Session(d.sessions[t].code, now) else d.sessions[t])
      && (forall x :: x in e.transports <==>
            x in d.transports && !(d.transports[x] == token && IsOverdue(d, token, now, limit)))
      && (forall x :: x in e.transports ==> e.transports[x] == d.transports[x])
  {
  }

  // ---- Whole runs ---------------------------------------------------------

  /** The step began this handshake, or it followed a registration of the code by this step. */
  predicate Began(d: Desk, s: Step, limit: nat, h: HandshakeId, v: Handshake) {
    || (Opens(d, s, limit) && s.newId == h && s.code == v.code && s.now == v.createdAt
        && (v.Login? <==> s.code in d.accounts))
    || (s.FinishRegistration? && s.nextId == h && v.Login? && s.now == v.createdAt && Admits(d, s, v.code))
  }

  predicate BeganAt(ws: seq<World>, steps: seq<Step>, i: nat, limit: nat, h: HandshakeId, v: Handshake)
    requires i < |steps| && i < |ws|
  {
    Began(ws[i].desk, steps[i], limit, h, v)
  }

  lemma StepBegan(w: World, s: Step, issued: set<Code>, limit: nat, h: HandshakeId, v: Handshake)
    requires Orderly(w, issued) && Enabled(w, s) && HasHandshake(NextDesk(w.desk, s, limit), h, v)
    ensures HasHandshake(w.desk, h, v) || Began(w.desk, s, limit, h, v)
  {
    HandshakesExact(w.desk, s, limit, h, v);
  }

  /** Every handshake was begun, under the conditions for it, by an earlier step. */
  lemma {:induction false} HandshakeWasBegun(ws: seq<World>, steps: seq<Step>, n: nat, issued: set<Code>,
                                             expiries: map<Code, nat>, limit: nat, h: HandshakeId, v: Handshake)
    requires Run(ws, steps, issued, expiries, limit) && n < |ws| && HasHandshake(ws[n].desk, h, v)
    ensures exists i :: 0 <= i < n && BeganAt(ws, steps, i, limit, h, v)
  {
    assert n > 0;
    AlwaysOrderly(ws, steps, n - 1, issued, expiries, limit);
    assert StepAt(ws, steps, n - 1, limit);
    StepBegan(ws[n - 1], steps[n - 1], issued, limit, h, v);
    if HasHandshake(ws[n - 1].desk, h, v) {
      HandshakeWasBegun(ws, steps, n - 1, issued, expiries, limit, h, v);
    } else {
      assert BeganAt(ws, steps, n - 1, limit, h, v);
    }
  }

  predicate IssuedAt(ws: seq<World>, steps: seq<Step>, i: nat, limit: nat, t: Token, code: Code)
    requires i < |steps| && i < |ws|
  {
    && (steps[i].FinishLogin? || steps[i].FinishOpaque?) && steps[i].token == t
    && Issues(ws[i].desk, steps[i], code, limit)
  }

  lemma StepIssued(w: World, s: Step, issued: set<Code>, limit: nat, t: Token, u: Session)
    requires Orderly(w, issued) && Enabled(w, s) && HasSessionAs(NextDesk(w.desk, s, limit), t, u)
    ensures || (t in w.desk.sessions && w.desk.sessions[t].code == u.code)
            || ((s.FinishLogin? || s.FinishOpaque?) && s.token == t && Issues(w.desk, s, u.code, limit))
  {
    SessionsExact(w.desk, s, limit, w.leaving, t, u);
  }

  lemma {:induction false} SessionWasIssued(ws: seq<World>, steps: seq<Step>, n: nat, issued: set<Code>,
                                            expiries: map<Code, nat>, limit: nat, t: Token)
    requires Run(ws, steps, issued, expiries, limit) && n < |ws| && t in ws[n].desk.sessions
    ensures exists i :: 0 <= i < n && IssuedAt(ws, steps, i, limit, t, ws[n].desk.sessions[t].code)
  {
    assert n > 0;
    AlwaysOrderly(ws, steps, n - 1, issued, expiries, limit);
    assert StepAt(ws, steps, n - 1, limit);
    var u := ws[n].desk.sessions[t];
    StepIssued(ws[n - 1], steps[n - 1], issued, limit, t, u);
    if t in ws[n - 1].desk.sessions && ws[n - 1].desk.sessions[t].code == u.code {
      SessionWasIssued(ws, steps, n - 1, issued, expiries, limit, t);
    } else {
      assert IssuedAt(ws, steps, n - 1, limit, t, u.code);
    }
  }

  /**
    Every session of a run goes back to a finish with a valid proof, and that to a
    handshake for the very same code, begun less than a handshake period before
    by a step that passed the rate limit and the password protocol, or by the
    registration of the code.
   */
  lemma SessionIsAuthenticated(ws: seq<World>, steps: seq<Step>, n: nat, issued: set<Code>,
                               expiries: map<Code, nat>, limit: nat, t: Token) returns (j: nat, i: nat)
    requires Run(ws, steps, issued, expiries, limit) && n < |ws| && t in ws[n].desk.sessions
    ensures j < i < n && IssuedAt(ws, steps, i, limit, t, ws[n].desk.sessions[t].code)
    ensures steps[i].id in ws[i].desk.handshakes
    ensures var h := ws[i].desk.handshakes[steps[i].id];
      && h.code == ws[n].desk.sessions[t].code && steps[i].now < h.createdAt + OPAQUE_HANDSHAKE_TTL_MS
      && BeganAt(ws, steps, j, limit, steps[i].id, h)
  {
    SessionWasIssued(ws, steps, n, issued, expiries, limit, t);
    i :| 0 <= i < n && IssuedAt(ws, steps, i, limit, t, ws[n].desk.sessions[t].code);
    var h := ws[i].desk.handshakes[steps[i].id];
    HandshakeWasBegun(ws, steps, i, issued, expiries, limit, steps[i].id, h);
    j :| 0 <= j < i && BeganAt(ws, steps, j, limit, steps[i].id, h);
  }
}
