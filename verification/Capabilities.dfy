/**
  Capabilities, accounts, handshakes and sessions: a capability code turns
  into at most one account, an account has at most one session, and every
  transport session belongs to a live session. An operation that holds
  `account_ops` is one step, and so is the session sweep. `active_session` holds
  neither operation lock: dropping an overdue session and dropping its transport
  sessions are two steps.
 */
module Capabilities {
  import opened Basics
  import opened Maps

  type Code = nat
  type HandshakeId = nat
  type Token = nat
  type TransportId = nat

  const OPAQUE_HANDSHAKE_TTL_MS: nat := 60_000
  const MAX_OPAQUE_HANDSHAKES: nat := 1_024

  datatype Handshake = Registration(code: Code, createdAt: nat) | Login(code: Code, createdAt: nat)
  datatype Session = Session(code: Code, lastActivity: nat)

  datatype Desk = Desk(available: set<Code>, expiries: map<Code, nat>, accounts: map<Code, Name>,
                       handshakes: map<HandshakeId, Handshake>, requests: set<HandshakeId>,
                       sessions: map<Token, Session>, transports: map<TransportId, Token>)

  // ---- The tables one by one ----------------------------------------------

  function LiveHandshakes(hs: map<HandshakeId, Handshake>, now: nat): map<HandshakeId, Handshake> {
    map h | h in hs && SatSub(now, hs[h].createdAt) < OPAQUE_HANDSHAKE_TTL_MS :: hs[h]
  }

  /** `prune_opaque_handshakes` */
  function Pruned(d: Desk, now: nat): Desk {
    var live := LiveHandshakes(d.handshakes, now);
    d.(handshakes := live, requests := (set h | h in d.requests && h in live))
  }

  predicate HasHandshakeRoom(d: Desk, now: nat) {
    |LiveHandshakes(d.handshakes, now)| < MAX_OPAQUE_HANDSHAKES
  }

  /** `store_opaque_handshake`: a live handshake is never evicted for a new one. */
  function Stored(d: Desk, id: HandshakeId, h: Handshake, now: nat): Desk {
    var live := LiveHandshakes(d.handshakes, now);
    d.(handshakes := if HasHandshakeRoom(d, now) then live[id := h] else live)
  }

  predicate CapabilityLive(d: Desk, code: Code, now: nat) {
    code in d.available && (code in d.expiries ==> d.expiries[code] > now / 1000)
  }

  function Expelled(d: Desk, code: Code): Desk {
    d.(available := (set c | c in d.available && c != code), expiries := Minus(d.expiries, {code}))
  }

  /** `available_capability_is_live`: a capability found expired is dropped for good. */
  function Checked(d: Desk, code: Code, now: nat): Desk {
    if code in d.available && !CapabilityLive(d, code, now) then Expelled(d, code) else d
  }

  /** The sessions that satisfy a condition, with the transport sessions of all others gone. */
  function KeepSessions(d: Desk, kept: set<Token>): Desk {
    d.(sessions := map t | t in d.sessions && t in kept :: d.sessions[t],
       transports := map x | x in d.transports && (d.transports[x] in d.sessions ==> d.transports[x] in kept)
                       :: d.transports[x])
  }

  function ActiveTokens(d: Desk, now: nat, limit: nat): set<Token> {
    set t | t in d.sessions && SatSub(now, d.sessions[t].lastActivity) < limit
  }

  /** The pruning inside `code_has_active_session` */
  function WithoutExpired(d: Desk, now: nat, limit: nat): Desk {
    KeepSessions(d, ActiveTokens(d, now, limit))
  }

  predicate HasSession(d: Desk, code: Code) {
    exists t :: t in d.sessions && d.sessions[t].code == code
  }

  function TokensOfOthers(d: Desk, code: Code): set<Token> {
    set t | t in d.sessions && d.sessions[t].code != code
  }

  /** `issue_session` and `issue_transport_session`: older sessions of the code go, with their transports. */
  function Issued(d: Desk, code: Code, token: Token, transport: Option<TransportId>, now: nat): Desk {
    var k := KeepSessions(d, TokensOfOthers(d, code));
    k.(sessions := k.sessions[token := Session(code, now)],
       transports := if transport.Some? then k.transports[transport.value := token] else k.transports)
  }

  // ---- The operations -----------------------------------------------------

  /**
    `bootstrap_start` and `start_opaque_account`; `allowed` is the rate limit, `crypto` the password
    protocol's verdict. Only the former keeps the credential request of a registration.
   */
  function Started(d: Desk, code: Code, id: HandshakeId, request: bool, allowed: bool, crypto: bool,
                   now: nat, limit: nat): Desk {
    var d1 := Pruned(d, now);
    var d2 := if code in d1.accounts then d1 else Checked(d1, code, now);
    if (code !in d1.accounts && !CapabilityLive(d1, code, now)) || !allowed then d2
    else
      var d3 := WithoutExpired(d2, now, limit);
      if HasSession(d3, code) || !crypto then d3
      else if code in d3.accounts then Stored(d3, id, Login(code, now), now)
      else
        var d4 := Stored(d3, id, Registration(code, now), now);
        if request && HasHandshakeRoom(d3, now) then d4.(requests := d4.requests + {id}) else d4
  }

  /** The code has a session that is not overdue. */
  predicate InSession(d: Desk, code: Code, now: nat, limit: nat) {
    exists t :: t in d.sessions && d.sessions[t].code == code && SatSub(now, d.sessions[t].lastActivity) < limit
  }

  /** When a handshake can begin. */
  predicate CanStart(d: Desk, code: Code, allowed: bool, crypto: bool, now: nat, limit: nat) {
    && (code in d.accounts || CapabilityLive(d, code, now))
    && allowed && crypto && !InSession(d, code, now, limit) && HasHandshakeRoom(d, now)
  }

  function Removed(d: Desk, id: HandshakeId): Desk {
    d.(handshakes := Minus(d.handshakes, {id}))
  }

  /** The account replaces the capability. */
  function Enrolled(d: Desk, code: Code, name: Name): Desk {
    var e := Expelled(d, code);
    e.(accounts := e.accounts[code := name])
  }

  /** A registration handshake that passes every check. */
  predicate Registers(d: Desk, id: HandshakeId, proof: bool, name: Option<Name>, now: nat) {
    var p := Pruned(d, now);
    && id in p.handshakes && p.handshakes[id].Registration? && id in p.requests
    && p.handshakes[id].code !in p.accounts && CapabilityLive(p, p.handshakes[id].code, now)
    && proof && name.Some?
  }

  /** `bootstrap_finish_registration`; a handshake is gone whatever comes of it. */
  function RegistrationFinished(d: Desk, id: HandshakeId, proof: bool, name: Option<Name>, next: HandshakeId,
                                now: nat): Desk {
    var p := Pruned(d, now);
    if id !in p.handshakes then p
    else
      var h, r := p.handshakes[id], Removed(p, id);
      if h.Login? || id !in r.requests then r
      else
        var q := r.(requests := (set x | x in r.requests && x != id));
        if h.code in q.accounts then q
        else if !Registers(d, id, proof, name, now) then Checked(q, h.code, now)
        else Stored(Enrolled(q, h.code, name.value), next, Login(h.code, now), now)
  }

  /** `bootstrap_finish_login` */
  function LoginFinished(d: Desk, id: HandshakeId, crypto: bool, token: Token, transport: TransportId, now: nat,
                         limit: nat): Desk {
    var p := Pruned(d, now);
    if id !in p.handshakes then p
    else
      var h, r := p.handshakes[id], Removed(p, id);
      if h.Registration? || !crypto then r
      else
        var w := WithoutExpired(r, now, limit);
        if HasSession(w, h.code) || h.code !in w.accounts then w
        else Issued(w, h.code, token, Some(transport), now)
  }

  /** When a login handshake ends in a session. */
  predicate LogsIn(d: Desk, id: HandshakeId, crypto: bool, now: nat, limit: nat) {
    var p := Pruned(d, now);
    && id in p.handshakes && p.handshakes[id].Login? && crypto
    && p.handshakes[id].code in d.accounts && !InSession(d, p.handshakes[id].code, now, limit)
  }

  /** `finish_opaque_account`, the path without a transport session. */
  function OpaqueFinished(d: Desk, id: HandshakeId, registering: bool, proof: bool, name: Option<Name>, token: Token,
                          now: nat, limit: nat): Desk {
    var p := Pruned(d, now);
    if id !in p.handshakes then p
    else
      var h, r := p.handshakes[id], Removed(p, id);
      if h.Registration? != registering then r
      else if registering then
        if h.code in r.accounts then r
        else if !CapabilityLive(r, h.code, now) || !proof || name.None? then Checked(r, h.code, now)
        else Issued(Enrolled(r, h.code, name.value), h.code, token, None, now)
      else if !proof then r
      else
        var w := WithoutExpired(r, now, limit);
        if HasSession(w, h.code) || h.code !in w.accounts then w else Issued(w, h.code, token, None, now)
  }

  predicate EnrolsByOpaque(d: Desk, id: HandshakeId, registering: bool, proof: bool, name: Option<Name>, now: nat) {
    var p := Pruned(d, now);
    && id in p.handshakes && p.handshakes[id].Registration? && registering
    && p.handshakes[id].code !in p.accounts && CapabilityLive(p, p.handshakes[id].code, now) && proof && name.Some?
  }

  predicate Overdue(d: Desk, token: Token, now: nat, limit: nat) {
    token in d.sessions && SatSub(now, d.sessions[token].lastActivity) >= limit
  }

  /** `active_session` under the lock of the sessions. */
  function Touched(d: Desk, token: Token, touch: bool, now: nat, limit: nat): Desk {
    if Overdue(d, token, now, limit) then d.(sessions := Minus(d.sessions, {token}))
    else if token !in d.sessions || !touch then d
    else d.(sessions := d.sessions[token := d.sessions[token].(lastActivity := now)])
  }

  /** The transport sessions of a token go. */
  function TransportsDropped(d: Desk, token: Token): Desk {
    d.(transports := map x | x in d.transports && d.transports[x] != token :: d.transports[x])
  }

  /** `active_session` as a whole, when nothing comes between its two locks. */
  function Resolved(d: Desk, token: Token, touch: bool, now: nat, limit: nat): Desk {
    var e := Touched(d, token, touch, now, limit);
    if Overdue(d, token, now, limit) then TransportsDropped(e, token) else e
  }

  /** `logout_account` */
  function LoggedOut(d: Desk, token: Token): Desk {
    KeepSessions(d, set t | t in d.sessions && t != token)
  }

  /** `invalidate_client_connection` */
  function Invalidated(d: Desk, code: Code): Desk {
    KeepSessions(d, TokensOfOthers(d, code))
  }

  /** The part of `session_sweeper` about sessions: a transport session needs its session. */
  function Swept(d: Desk, now: nat, limit: nat): Desk {
    var kept := ActiveTokens(d, now, limit);
    d.(sessions := map t | t in d.sessions && t in kept :: d.sessions[t],
       transports := map x | x in d.transports && d.transports[x] in kept :: d.transports[x])
  }

  // ---- Runs ---------------------------------------------------------------

  datatype Step =
    | Begin(code: Code, newId: HandshakeId, request: bool, allowed: bool, crypto: bool, now: nat)
    | FinishRegistration(id: HandshakeId, proof: bool, name: Option<Name>, nextId: HandshakeId, now: nat)
    | FinishLogin(id: HandshakeId, crypto: bool, token: Token, transport: TransportId, now: nat)
    | FinishOpaque(id: HandshakeId, registering: bool, proof: bool, name: Option<Name>, token: Token, now: nat)
    | Touch(token: Token, touch: bool, now: nat)
    | DropTransports(token: Token)
    | SweepSessions(now: nat)
    | Logout(token: Token)
    | Invalidate(code: Code)
    | Wipe

  /**
    The desk, the codes that ever became accounts, the handshake ids ever given
    out and ever finished, and the tokens whose overdue session `active_session`
    has dropped and whose transport sessions it is about to drop.
   */
  datatype World = World(desk: Desk, enrolled: seq<Code>, born: set<HandshakeId>, finished: seq<HandshakeId>,
                         leaving: set<Token>)

  function Boot(issued: set<Code>, expiries: map<Code, nat>): World {
    World(Desk(issued, expiries, map[], map[], {}, map[], map[]), [], {}, [], {})
  }

  predicate IsFinish(s: Step) {
    s.FinishRegistration? || s.FinishLogin? || s.FinishOpaque?
  }

  /** The step finds the handshake it wants to finish. */
  predicate Finishes(d: Desk, s: Step, id: HandshakeId) {
    IsFinish(s) && s.id == id && id in Pruned(d, s.now).handshakes
  }

  /** The step turns a capability into an account. */
  predicate Enrols(d: Desk, s: Step) {
    (s.FinishRegistration? && Registers(d, s.id, s.proof, s.name, s.now))
    || (s.FinishOpaque? && EnrolsByOpaque(d, s.id, s.registering, s.proof, s.name, s.now))
  }

  function EnrolledCode(d: Desk, s: Step): Code
    requires Enrols(d, s)
  {
    Pruned(d, s.now).handshakes[s.id].code
  }

  /** Fresh ids, tokens and names. */
  predicate Enabled(w: World, s: Step) {
    match s
    case Begin(_, id, _, _, _, _) => id !in w.born
    case FinishRegistration(_, _, name, next, _) =>
      next !in w.born && (name.Some? ==> forall c :: c in w.desk.accounts ==> w.desk.accounts[c] != name.value)
    case FinishLogin(_, _, token, _, _) => token !in w.desk.sessions
    case DropTransports(token) => token in w.leaving
    case FinishOpaque(_, _, _, name, token, _) =>
      && token !in w.desk.sessions
      && (name.Some? ==> forall c :: c in w.desk.accounts ==> w.desk.accounts[c] != name.value)
    case _ => true
  }

  function NextDesk(d: Desk, s: Step, limit: nat): Desk {
    match s
    case Begin(code, id, request, allowed, crypto, now) => Started(d, code, id, request, allowed, crypto, now, limit)
    case FinishRegistration(id, proof, name, next, now) => RegistrationFinished(d, id, proof, name, next, now)
    case FinishLogin(id, crypto, token, transport, now) => LoginFinished(d, id, crypto, token, transport, now, limit)
    case FinishOpaque(id, registering, proof, name, token, now) =>
      OpaqueFinished(d, id, registering, proof, name, token, now, limit)
    case Touch(token, touch, now) => Touched(d, token, touch, now, limit)
    case DropTransports(token) => TransportsDropped(d, token)
    case SweepSessions(now) => Swept(d, now, limit)
    case Logout(token) => LoggedOut(d, token)
    case Invalidate(code) => Invalidated(d, code)
    case Wipe => Desk({}, map[], map[], map[], {}, map[], map[])
  }

  function Next(w: World, s: Step, limit: nat): World {
    World(NextDesk(w.desk, s, limit),
          if Enrols(w.desk, s) then w.enrolled + [EnrolledCode(w.desk, s)] else w.enrolled,
          w.born + (if s.Begin? then {s.newId} else if s.FinishRegistration? then {s.nextId} else {}),
          if IsFinish(s) && Finishes(w.desk, s, s.id) then w.finished + [s.id] else w.finished,
          if s.Touch? && Overdue(w.desk, s.token, s.now, limit) then w.leaving + {s.token}
          else if s.DropTransports? then w.leaving - {s.token}
          else w.leaving)
  }

  // ---- What every step keeps ----------------------------------------------

  ghost predicate CodesApart(d: Desk, issued: set<Code>) {
    && d.available <= issued && d.accounts.Keys <= issued
    && (forall c :: c in d.accounts ==> c !in d.available)
    && (forall c, e :: c in d.accounts && e in d.accounts && d.accounts[c] == d.accounts[e] ==> c == e)
  }

  ghost predicate SessionsSingle(d: Desk, leaving: set<Token>) {
    && (forall t :: t in d.sessions ==> d.sessions[t].code in d.accounts)
    && (forall t, u :: t in d.sessions && u in d.sessions && d.sessions[t].code == d.sessions[u].code ==> t == u)
    && (forall x :: x in d.transports ==> d.transports[x] in d.sessions || d.transports[x] in leaving)
  }

  ghost predicate History(w: World) {
    && Distinct(w.enrolled) && Distinct(w.finished)
    && (forall c :: c in w.enrolled ==> c !in w.desk.available)
    && (forall h :: h in w.finished ==> h in w.born && h !in w.desk.handshakes)
    && (forall h :: h in w.desk.handshakes ==> h in w.born)
  }

  ghost predicate Orderly(w: World, issued: set<Code>) {
    CodesApart(w.desk, issued) && SessionsSingle(w.desk, w.leaving) && History(w)
  }

  lemma KeepSingle(d: Desk, kept: set<Token>, leaving: set<Token>)
    requires SessionsSingle(d, leaving)
    ensures SessionsSingle(KeepSessions(d, kept), leaving)
  {
  }

  lemma IssueSingle(d: Desk, code: Code, token: Token, transport: Option<TransportId>, now: nat, leaving: set<Token>)
    requires SessionsSingle(d, leaving) && code in d.accounts && token !in d.sessions
    ensures SessionsSingle(Issued(d, code, token, transport, now), leaving)
  {
    KeepSingle(d, TokensOfOthers(d, code), leaving);
  }

  /** Codes and accounts of the desk after a step, for steps that enrol nobody. */
  ghost predicate CodesShrink(d: Desk, e: Desk) {
    e.available <= d.available && e.accounts == d.accounts
  }

  lemma StepCodes(d: Desk, s: Step, limit: nat)
    requires !s.Wipe? && !Enrols(d, s)
    ensures CodesShrink(d, NextDesk(d, s, limit))
  {
    match s
    case Begin(_, _, _, _, _, _) => BeginCodes(d, s, limit);
    case FinishRegistration(_, _, _, _, _) => RegistrationCodes(d, s, limit);
    case FinishOpaque(_, _, _, _, _, _) => OpaqueCodes(d, s, limit);
    case _ =>
  }

  lemma BeginCodes(d: Desk, s: Step, limit: nat)
    requires s.Begin?
    ensures CodesShrink(d, NextDesk(d, s, limit))
  {
  }

  lemma RegistrationCodes(d: Desk, s: Step, limit: nat)
    requires s.FinishRegistration? && !Enrols(d, s)
    ensures CodesShrink(d, NextDesk(d, s, limit))
  {
  }

  lemma OpaqueCodes(d: Desk, s: Step, limit: nat)
    requires s.FinishOpaque? && !Enrols(d, s)
    ensures CodesShrink(d, NextDesk(d, s, limit))
  {
  }

  lemma EnrolCodes(d: Desk, s: Step, limit: nat)
    requires Enrols(d, s)
    ensures var e, code := NextDesk(d, s, limit), EnrolledCode(d, s);
      && code in d.available && code !in e.available && e.available <= d.available
      && e.accounts == d.accounts[code := s.name.value] && code !in d.accounts
  {
  }

  lemma StepApart(w: World, s: Step, issued: set<Code>, limit: nat)
    requires CodesApart(w.desk, issued) && Enabled(w, s)
    ensures CodesApart(NextDesk(w.desk, s, limit), issued)
  {
    if Enrols(w.desk, s) {
      EnrolCodes(w.desk, s, limit);
    } else if !s.Wipe? {
      StepCodes(w.desk, s, limit);
    }
  }

  lemma BeginSingle(d: Desk, s: Step, limit: nat, leaving: set<Token>)
    requires SessionsSingle(d, leaving) && s.Begin?
    ensures SessionsSingle(NextDesk(d, s, limit), leaving)
  {
    var d1 := Pruned(d, s.now);
    var d2 := if s.code in d1.accounts then d1 else Checked(d1, s.code, s.now);
    KeepSingle(d2, ActiveTokens(d2, s.now, limit), leaving);
  }

  lemma RegistrationSingle(d: Desk, s: Step, limit: nat, leaving: set<Token>)
    requires SessionsSingle(d, leaving) && s.FinishRegistration?
    ensures SessionsSingle(NextDesk(d, s, limit), leaving)
  {
  }

  lemma LoginSingle(d: Desk, s: Step, limit: nat, leaving: set<Token>)
    requires SessionsSingle(d, leaving) && s.FinishLogin? && s.token !in d.sessions
    ensures SessionsSingle(NextDesk(d, s, limit), leaving)
  {
    var r := Removed(Pruned(d, s.now), s.id);
    var w := WithoutExpired(r, s.now, limit);
    KeepSingle(r, ActiveTokens(r, s.now, limit), leaving);
    if s.id in Pruned(d, s.now).handshakes {
      var code := Pruned(d, s.now).handshakes[s.id].code;
      if code in w.accounts { IssueSingle(w, code, s.token, Some(s.transport), s.now, leaving); }
    }
  }

  lemma OpaqueLoginSingle(d: Desk, s: Step, limit: nat, leaving: set<Token>)
    requires SessionsSingle(d, leaving) && s.FinishOpaque? && !s.registering && s.token !in d.sessions
    ensures SessionsSingle(NextDesk(d, s, limit), leaving)
  {
    var r := Removed(Pruned(d, s.now), s.id);
    var w := WithoutExpired(r, s.now, limit);
    KeepSingle(r, ActiveTokens(r, s.now, limit), leaving);
    if s.id in Pruned(d, s.now).handshakes {
      var code := Pruned(d, s.now).handshakes[s.id].code;
      if code in w.accounts { IssueSingle(w, code, s.token, None, s.now, leaving); }
    }
  }

  lemma OpaqueRegistrationSingle(d: Desk, s: Step, limit: nat, leaving: set<Token>)
    requires SessionsSingle(d, leaving) && s.FinishOpaque? && s.registering && s.token !in d.sessions
    ensures SessionsSingle(NextDesk(d, s, limit), leaving)
  {
    var r := Removed(Pruned(d, s.now), s.id);
    if s.id in Pruned(d, s.now).handshakes && s.name.Some? {
      var code := Pruned(d, s.now).handshakes[s.id].code;
      IssueSingle(Enrolled(r, code, s.name.value), code, s.token, None, s.now, leaving);
    }
  }

  lemma StepSingle(w: World, s: Step, limit: nat)
    requires SessionsSingle(w.desk, w.leaving) && Enabled(w, s)
    ensures SessionsSingle(NextDesk(w.desk, s, limit), Next(w, s, limit).leaving)
  {
    match s
    case Begin(_, _, _, _, _, _) => BeginSingle(w.desk, s, limit, w.leaving);
    case FinishRegistration(_, _, _, _, _) => RegistrationSingle(w.desk, s, limit, w.leaving);
    case FinishLogin(_, _, _, _, _) => LoginSingle(w.desk, s, limit, w.leaving);
    case FinishOpaque(_, registering, _, _, _, _) =>
      if registering { OpaqueRegistrationSingle(w.desk, s, limit, w.leaving); }
      else { OpaqueLoginSingle(w.desk, s, limit, w.leaving); }
    case SweepSessions(_) =>
    case Touch(_, _, _) =>
    case DropTransports(_) =>
    case Logout(token) => KeepSingle(w.desk, (set t | t in w.desk.sessions && t != token), w.leaving);
    case Invalidate(code) => KeepSingle(w.desk, TokensOfOthers(w.desk, code), w.leaving);
    case Wipe =>
  }

  /** New handshakes carry the step's fresh id; a finished one is gone. */
  lemma StepHandshakes(d: Desk, s: Step, limit: nat, h: HandshakeId)
    requires h in NextDesk(d, s, limit).handshakes
    ensures (s.Begin? && h == s.newId) || (s.FinishRegistration? && h == s.nextId)
         || (h in d.handshakes && !Finishes(d, s, h))
  {
    match s
    case Begin(_, _, _, _, _, _) => BeginHandshakes(d, s, limit, h);
    case FinishRegistration(_, _, _, _, _) => RegistrationHandshakes(d, s, limit, h);
    case FinishLogin(_, _, _, _, _) => LoginHandshakes(d, s, limit, h);
    case FinishOpaque(_, _, _, _, _, _) => OpaqueHandshakes(d, s, limit, h);
    case _ =>
  }

  lemma BeginHandshakes(d: Desk, s: Step, limit: nat, h: HandshakeId)
    requires s.Begin? && h in NextDesk(d, s, limit).handshakes
    ensures h == s.newId || h in d.handshakes
  {
  }

  lemma LoginHandshakes(d: Desk, s: Step, limit: nat, h: HandshakeId)
    requires s.FinishLogin? && h in NextDesk(d, s, limit).handshakes
    ensures h in d.handshakes && !Finishes(d, s, h)
  {
  }

  lemma RegistrationHandshakes(d: Desk, s: Step, limit: nat, h: HandshakeId)
    requires s.FinishRegistration? && h in NextDesk(d, s, limit).handshakes
    ensures h == s.nextId || (h in d.handshakes && !Finishes(d, s, h))
  {
  }

  lemma OpaqueHandshakes(d: Desk, s: Step, limit: nat, h: HandshakeId)
    requires s.FinishOpaque? && h in NextDesk(d, s, limit).handshakes
    ensures h in d.handshakes && !Finishes(d, s, h)
  {
  }

  lemma AppendDistinct<T>(xs: seq<T>, x: T)
    requires Distinct(xs) && x !in xs
    ensures Distinct(xs + [x])
  {
  }

  lemma StepHistory(w: World, s: Step, issued: set<Code>, limit: nat)
    requires CodesApart(w.desk, issued) && History(w) && Enabled(w, s)
    ensures History(Next(w, s, limit))
  {
    var v := Next(w, s, limit);
    if Enrols(w.desk, s) {
      EnrolCodes(w.desk, s, limit);
      AppendDistinct(w.enrolled, EnrolledCode(w.desk, s));
    } else if !s.Wipe? {
      StepCodes(w.desk, s, limit);
    }
    if IsFinish(s) && Finishes(w.desk, s, s.id) { AppendDistinct(w.finished, s.id); }
    forall h | h in v.desk.handshakes ensures h in v.born && h !in v.finished {
      StepHandshakes(w.desk, s, limit, h);
    }
  }

  lemma StepOrderly(w: World, s: Step, issued: set<Code>, limit: nat)
    requires Orderly(w, issued) && Enabled(w, s)
    ensures Orderly(Next(w, s, limit), issued)
  {
    StepApart(w, s, issued, limit);
    StepSingle(w, s, limit);
    StepHistory(w, s, issued, limit);
  }

  ghost predicate Run(ws: seq<World>, steps: seq<Step>, issued: set<Code>, expiries: map<Code, nat>, limit: nat) {
    && |ws| == |steps| + 1 && ws[0] == Boot(issued, expiries)
    && forall i :: 0 <= i < |steps| ==> StepAt(ws, steps, i, limit)
  }

  ghost predicate StepAt(ws: seq<World>, steps: seq<Step>, i: nat, limit: nat)
    requires i < |steps| && i + 1 < |ws|
  {
    Enabled(ws[i], steps[i]) && ws[i + 1] == Next(ws[i], steps[i], limit)
  }

  /**
    In every run: capabilities and accounts are disjoint parts of the issued
    set, every account has at most one session, every transport session a live
    one or one that `active_session` is just dropping, no capability is enrolled
    twice and no handshake finished twice.
   */
  lemma {:induction false} AlwaysOrderly(ws: seq<World>, steps: seq<Step>, n: nat, issued: set<Code>,
                                         expiries: map<Code, nat>, limit: nat)
    requires Run(ws, steps, issued, expiries, limit) && n < |ws|
    ensures Orderly(ws[n], issued)
  {
    if n > 0 {
      AlwaysOrderly(ws, steps, n - 1, issued, expiries, limit);
      assert StepAt(ws, steps, n - 1, limit);
      StepOrderly(ws[n - 1], steps[n - 1], issued, limit);
    }
  }

  ghost predicate EnrolsCode(w: World, s: Step, code: Code) {
    Enrols(w.desk, s) && EnrolledCode(w.desk, s) == code
  }

  lemma {:induction false} HistoryGrows(ws: seq<World>, steps: seq<Step>, i: nat, n: nat,
                                        issued: set<Code>, expiries: map<Code, nat>, limit: nat)
    requires Run(ws, steps, issued, expiries, limit) && i <= n < |ws|
    ensures ws[i].enrolled <= ws[n].enrolled && ws[i].finished <= ws[n].finished
  {
    if i < n {
      HistoryGrows(ws, steps, i, n - 1, issued, expiries, limit);
      assert StepAt(ws, steps, n - 1, limit);
    }
  }

  /** Each capability creates at most one account. */
  lemma EnrolledAtMostOnce(ws: seq<World>, steps: seq<Step>, i: nat, j: nat, code: Code,
                           issued: set<Code>, expiries: map<Code, nat>, limit: nat)
    requires Run(ws, steps, issued, expiries, limit) && i < j < |steps| && EnrolsCode(ws[i], steps[i], code)
    ensures !EnrolsCode(ws[j], steps[j], code)
  {
    assert StepAt(ws, steps, i, limit);
    HistoryGrows(ws, steps, i + 1, j, issued, expiries, limit);
    AlwaysOrderly(ws, steps, j, issued, expiries, limit);
    assert ws[i + 1].enrolled[|ws[i].enrolled|] == code;
    EnrolsUnenrolled(ws[j], steps[j], code);
  }

  lemma EnrolsUnenrolled(w: World, s: Step, code: Code)
    requires History(w) && code in w.enrolled
    ensures !EnrolsCode(w, s, code)
  {
    if EnrolsCode(w, s, code) { EnrolCodes(w.desk, s, 0); }
  }

  /** Each handshake id is finished at most once. */
  lemma FinishedAtMostOnce(ws: seq<World>, steps: seq<Step>, i: nat, j: nat, id: HandshakeId,
                           issued: set<Code>, expiries: map<Code, nat>, limit: nat)
    requires Run(ws, steps, issued, expiries, limit) && i < j < |steps| && Finishes(ws[i].desk, steps[i], id)
    ensures !Finishes(ws[j].desk, steps[j], id)
  {
    assert StepAt(ws, steps, i, limit);
    HistoryGrows(ws, steps, i + 1, j, issued, expiries, limit);
    AlwaysOrderly(ws, steps, j, issued, expiries, limit);
    assert ws[i + 1].finished[|ws[i].finished|] == id;
  }

  // ---- Expiry of capabilities ---------------------------------------------

  /** A capability is accepted exactly while its expiry, given in seconds, lies ahead. */
  lemma LiveIffAhead(d: Desk, code: Code, now: nat)
    ensures CapabilityLive(d, code, now) <==>
            code in d.available && (code in d.expiries ==> now < d.expiries[code] * 1000)
  {
  }

  /** Capabilities that are still available have the expiry they were issued with. */
  ghost predicate DatesKept(d: Desk, expiries: map<Code, nat>) {
    forall c :: c in d.available ==>
      (c in d.expiries <==> c in expiries) && (c in expiries ==> d.expiries[c] == expiries[c])
  }

  lemma StepDates(d: Desk, s: Step, limit: nat, expiries: map<Code, nat>)
    requires DatesKept(d, expiries)
    ensures DatesKept(NextDesk(d, s, limit), expiries)
  {
    match s
    case Begin(_, _, _, _, _, _) => BeginDates(d, s, limit, expiries);
    case FinishRegistration(_, _, _, _, _) => RegistrationDates(d, s, limit, expiries);
    case FinishOpaque(_, _, _, _, _, _) => OpaqueDates(d, s, limit, expiries);
    case _ =>
  }

  lemma BeginDates(d: Desk, s: Step, limit: nat, expiries: map<Code, nat>)
    requires s.Begin? && DatesKept(d, expiries)
    ensures DatesKept(NextDesk(d, s, limit), expiries)
  {
  }

  lemma RegistrationDates(d: Desk, s: Step, limit: nat, expiries: map<Code, nat>)
    requires s.FinishRegistration? && DatesKept(d, expiries)
    ensures DatesKept(NextDesk(d, s, limit), expiries)
  {
  }

  lemma OpaqueDates(d: Desk, s: Step, limit: nat, expiries: map<Code, nat>)
    requires s.FinishOpaque? && DatesKept(d, expiries)
    ensures DatesKept(NextDesk(d, s, limit), expiries)
  {
  }

  lemma {:induction false} RunDates(ws: seq<World>, steps: seq<Step>, n: nat,
                                    issued: set<Code>, expiries: map<Code, nat>, limit: nat)
    requires Run(ws, steps, issued, expiries, limit) && n < |ws|
    ensures DatesKept(ws[n].desk, expiries)
  {
    if n > 0 {
      RunDates(ws, steps, n - 1, issued, expiries, limit);
      assert StepAt(ws, steps, n - 1, limit);
      StepDates(ws[n - 1].desk, steps[n - 1], limit, expiries);
    }
  }

  /**
    In every run a capability becomes an account only if it was issued, before
    the expiry it was issued with, by a registration handshake no older than the
    handshake period, and with a valid proof.
   */
  lemma EnrolledInTime(ws: seq<World>, steps: seq<Step>, n: nat,
                       issued: set<Code>, expiries: map<Code, nat>, limit: nat)
    requires Run(ws, steps, issued, expiries, limit) && n < |steps| && Enrols(ws[n].desk, steps[n])
    ensures var s, code := steps[n], EnrolledCode(ws[n].desk, steps[n]);
      && code in issued && (code in expiries ==> s.now < expiries[code] * 1000) && s.proof
      && s.id in ws[n].desk.handshakes && ws[n].desk.handshakes[s.id].Registration?
      && s.now < ws[n].desk.handshakes[s.id].createdAt + OPAQUE_HANDSHAKE_TTL_MS
  {
    var s, code := steps[n], EnrolledCode(ws[n].desk, steps[n]);
    AlwaysOrderly(ws, steps, n, issued, expiries, limit);
    RunDates(ws, steps, n, issued, expiries, limit);
    LiveIffAhead(Pruned(ws[n].desk, s.now), code, s.now);
  }

  // ---- Active sessions ----------------------------------------------------

  /** The token stands for a session of this code that was used at `since` or later. */
  predicate Alive(d: Desk, token: Token, code: Code, since: nat) {
    token in d.sessions && d.sessions[token].code == code && d.sessions[token].lastActivity >= since
  }

  /** The step ends no session of the code by itself and reads the clock within the inactivity limit. */
  predicate Spares(s: Step, token: Token, code: Code, since: nat, limit: nat) {
    match s
    case Begin(_, _, _, _, _, now) => since <= now < since + limit
    case FinishLogin(_, _, _, _, now) => since <= now < since + limit
    case FinishOpaque(_, _, _, _, _, now) => since <= now < since + limit
    case Touch(_, _, now) => since <= now < since + limit
    case SweepSessions(now) => since <= now < since + limit
    case Logout(t) => t != token
    case Invalidate(c) => c != code
    case Wipe => false
    case _ => true
  }

  lemma StaysActive(d: Desk, token: Token, code: Code, since: nat, now: nat, limit: nat)
    requires Alive(d, token, code, since) && since <= now < since + limit
    ensures var w := WithoutExpired(d, now, limit); Alive(w, token, code, since) && HasSession(w, code)
  {
  }

  lemma IssueSpares(d: Desk, other: Code, added: Token, transport: Option<TransportId>, now: nat,
                    token: Token, code: Code, since: nat)
    requires Alive(d, token, code, since) && other != code && added != token
    ensures Alive(Issued(d, other, added, transport, now), token, code, since)
  {
  }

  lemma LoginSpares(d: Desk, s: Step, limit: nat, token: Token, code: Code, since: nat)
    requires s.FinishLogin? && s.token !in d.sessions
    requires Alive(d, token, code, since) && Spares(s, token, code, since, limit)
    ensures Alive(NextDesk(d, s, limit), token, code, since)
  {
    var r := Removed(Pruned(d, s.now), s.id);
    var w := WithoutExpired(r, s.now, limit);
    StaysActive(r, token, code, since, s.now, limit);
    if s.id in Pruned(d, s.now).handshakes {
      var other := Pruned(d, s.now).handshakes[s.id].code;
      if other != code { IssueSpares(w, other, s.token, Some(s.transport), s.now, token, code, since); }
    }
  }

  lemma OpaqueSpares(d: Desk, s: Step, limit: nat, token: Token, code: Code, since: nat)
    requires s.FinishOpaque? && s.token !in d.sessions && code in d.accounts
    requires Alive(d, token, code, since) && Spares(s, token, code, since, limit)
    ensures Alive(NextDesk(d, s, limit), token, code, since)
  {
    var r := Removed(Pruned(d, s.now), s.id);
    var w := WithoutExpired(r, s.now, limit);
    StaysActive(r, token, code, since, s.now, limit);
    if s.id in Pruned(d, s.now).handshakes {
      var other := Pruned(d, s.now).handshakes[s.id].code;
      if other != code {
        IssueSpares(w, other, s.token, None, s.now, token, code, since);
        if s.name.Some? {
          IssueSpares(Enrolled(r, other, s.name.value), other, s.token, None, s.now, token, code, since);
        }
      }
    }
  }

  lemma StepSpares(w: World, s: Step, limit: nat, token: Token, code: Code, since: nat)
    requires SessionsSingle(w.desk, w.leaving) && Enabled(w, s)
    requires Alive(w.desk, token, code, since) && Spares(s, token, code, since, limit)
    ensures Alive(NextDesk(w.desk, s, limit), token, code, since)
  {
    match s
    case Begin(c, _, _, _, _, now) =>
      var d1 := Pruned(w.desk, now);
      var d2 := if c in d1.accounts then d1 else Checked(d1, c, now);
      StaysActive(d2, token, code, since, now, limit);
    case FinishLogin(_, _, _, _, _) => LoginSpares(w.desk, s, limit, token, code, since);
    case FinishOpaque(_, _, _, _, _, _) => OpaqueSpares(w.desk, s, limit, token, code, since);
    case _ =>
  }

  /**
    A session that was used stays for the inactivity limit: until then only the
    logout of its token, the invalidation of its code or a wipe ends it, whatever
    sweeps, logins and other requests come.
   */
  lemma {:induction false} UsedSessionStays(ws: seq<World>, steps: seq<Step>, i: nat, n: nat, token: Token,
                                            issued: set<Code>, expiries: map<Code, nat>, limit: nat)
    requires Run(ws, steps, issued, expiries, limit) && i < n < |ws|
    requires steps[i].Touch? && steps[i].touch && steps[i].token == token
    requires token in ws[i].desk.sessions && !Overdue(ws[i].desk, token, steps[i].now, limit)
    requires forall k :: i < k < n ==> Spares(steps[k], token, ws[i].desk.sessions[token].code, steps[i].now, limit)
    ensures Alive(ws[n].desk, token, ws[i].desk.sessions[token].code, steps[i].now)
  {
    assert StepAt(ws, steps, n - 1, limit);
    if i < n - 1 {
      UsedSessionStays(ws, steps, i, n - 1, token, issued, expiries, limit);
      AlwaysOrderly(ws, steps, n - 1, issued, expiries, limit);
      StepSpares(ws[n - 1], steps[n - 1], limit, token, ws[i].desk.sessions[token].code, steps[i].now);
    }
  }

  // ---- The desk as the relay keeps it -------------------------------------

  /**
    A sweep leaves a session exactly to the codes whose session is not overdue,
    and transport sessions with a session only. Where every transport session had
    its session, it does what `code_has_active_session` does.
   */
  lemma SweepLeavesActive(d: Desk, now: nat, limit: nat, code: Code)
    ensures var e := Swept(d, now, limit);
      && (HasSession(e, code) <==> InSession(d, code, now, limit))
      && (forall x :: x in e.transports ==> e.transports[x] in e.sessions)
      && (SessionsSingle(d, {}) ==> e == WithoutExpired(d, now, limit))
  {
    var e := Swept(d, now, limit);
    if InSession(d, code, now, limit) {
      var t :| t in d.sessions && d.sessions[t].code == code && SatSub(now, d.sessions[t].lastActivity) < limit;
      assert t in e.sessions && e.sessions[t].code == code;
    }
    if SessionsSingle(d, {}) {
      assert e.transports == WithoutExpired(d, now, limit).transports;
    }
  }

  /** Dropping the transports of expired tokens is keeping those of the others. */
  lemma KeptTransports(d: Desk, expired: set<Token>, kept: set<Token>)
    requires forall t :: t in d.sessions ==> (t in expired <==> t !in kept)
    requires expired <= d.sessions.Keys
    ensures KeepSessions(d, kept).transports
         == map x | x in d.transports && d.transports[x] !in expired :: d.transports[x]
    ensures expired == {} ==> KeepSessions(d, kept).transports == d.transports
  {
  }

  /** A second look at the same instant prunes nothing more. */
  lemma PruneOnce(d: Desk, now: nat)
    ensures LiveHandshakes(LiveHandshakes(d.handshakes, now), now) == LiveHandshakes(d.handshakes, now)
  {
  }

  lemma ActiveMeansInSession(d: Desk, code: Code, now: nat, limit: nat)
    ensures HasSession(WithoutExpired(d, now, limit), code) <==> InSession(d, code, now, limit)
  {
    var w := WithoutExpired(d, now, limit);
    if InSession(d, code, now, limit) {
      var t :| t in d.sessions && d.sessions[t].code == code && SatSub(now, d.sessions[t].lastActivity) < limit;
      assert t in w.sessions && w.sessions[t].code == code;
    }
  }

  lemma UnknownLeaves(d: Desk, token: Token)
    requires token !in d.sessions
    ensures LoggedOut(d, token) == d
  {
    assert LoggedOut(d, token).sessions == d.sessions;
  }

  class AccountDesk {
    const inactivityLimit: nat
    var available: set<Code>
    var expiries: map<Code, nat>
    var accounts: map<Code, Name>
    var handshakes: map<HandshakeId, Handshake>
    var requests: set<HandshakeId>
    var sessions: map<Token, Session>
    var transports: map<TransportId, Token>

    ghost function View(): Desk
      reads this
    {
      Desk(available, expiries, accounts, handshakes, requests, sessions, transports)
    }

    constructor (issued: set<Code>, expiries: map<Code, nat>, limit: nat)
      ensures View() == Boot(issued, expiries).desk && inactivityLimit == limit
    {
      inactivityLimit := limit;
      available, this.expiries, accounts := issued, expiries, map[];
      handshakes, requests, sessions, transports := map[], {}, map[], map[];
    }

    method PruneHandshakes(now: nat)
      modifies this`handshakes, this`requests
      ensures View() == Pruned(old(View()), now)
    {
      handshakes := map h | h in handshakes && SatSub(now, handshakes[h].createdAt) < OPAQUE_HANDSHAKE_TTL_MS
                      :: handshakes[h];
      requests := set h | h in requests && h in handshakes;
    }

    method StoreHandshake(id: HandshakeId, h: Handshake, now: nat) returns (ok: bool)
      modifies this`handshakes
      ensures ok == HasHandshakeRoom(old(View()), now) && View() == Stored(old(View()), id, h, now)
    {
      handshakes := map x | x in handshakes && SatSub(now, handshakes[x].createdAt) < OPAQUE_HANDSHAKE_TTL_MS
                      :: handshakes[x];
      if |handshakes| >= MAX_OPAQUE_HANDSHAKES { return false; }
      handshakes := handshakes[id := h];
      return true;
    }

    method CapabilityIsLive(code: Code, now: nat) returns (live: bool)
      modifies this`available, this`expiries
      ensures live == CapabilityLive(old(View()), code, now) && View() == Checked(old(View()), code, now)
    {
      if code !in available { return false; }
      if code in expiries && expiries[code] <= now / 1000 {
        available := set c | c in available && c != code;
        expiries := Minus(expiries, {code});
        return false;
      }
      return true;
    }

    method CodeHasActiveSession(code: Code, now: nat) returns (active: bool)
      modifies this`sessions, this`transports
      ensures View() == WithoutExpired(old(View()), now, inactivityLimit) && active == HasSession(View(), code)
    {
      var expired := set t | t in sessions && SatSub(now, sessions[t].lastActivity) >= inactivityLimit;
      KeptTransports(View(), expired, ActiveTokens(View(), now, inactivityLimit));
      sessions := map t | t in sessions && t !in expired :: sessions[t];
      active := exists t :: t in sessions && sessions[t].code == code;
      if expired != {} { transports := map x | x in transports && transports[x] !in expired :: transports[x]; }
    }

    /** `issue_session` and `issue_transport_session`; a code without an account is refused. */
    method IssueSession(code: Code, token: Token, transport: Option<TransportId>, now: nat) returns (ok: bool)
      modifies this`sessions, this`transports
      ensures ok == (code in accounts)
      ensures View() == if ok then Issued(old(View()), code, token, transport, now) else old(View())
    {
      if code !in accounts { return false; }
      ReplaceSessions(code);
      sessions := sessions[token := Session(code, now)];
      if transport.Some? { transports := transports[transport.value := token]; }
      return true;
    }

    method ReplaceSessions(code: Code)
      modifies this`sessions, this`transports
      ensures View() == KeepSessions(old(View()), TokensOfOthers(old(View()), code))
    {
      var replaced := set t | t in sessions && sessions[t].code == code;
      KeptTransports(View(), replaced, TokensOfOthers(View(), code));
      sessions := map t | t in sessions && sessions[t].code != code :: sessions[t];
      transports := map x | x in transports && transports[x] !in replaced :: transports[x];
    }

    /** `bootstrap_start` with `request`, `start_opaque_account` without. */
    method BootstrapStart(code: Code, id: HandshakeId, request: bool, allowed: bool, crypto: bool, now: nat)
        returns (ok: bool)
      modifies this
      ensures View() == Started(old(View()), code, id, request, allowed, crypto, now, inactivityLimit)
      ensures ok == CanStart(old(View()), code, allowed, crypto, now, inactivityLimit)
    {
      PruneOnce(View(), now);
      PruneHandshakes(now);
      if code !in accounts {
        var live := CapabilityIsLive(code, now);
        if !live { return false; }
      }
      if !allowed { return false; }
      ActiveMeansInSession(View(), code, now, inactivityLimit);
      var active := CodeHasActiveSession(code, now);
      if active || !crypto { return false; }
      if code in accounts {
        ok := StoreHandshake(id, Login(code, now), now);
      } else {
        ok := StoreHandshake(id, Registration(code, now), now);
        if ok && request { requests := requests + {id}; }
      }
    }

    /** `bootstrap_finish_registration` */
    method FinishRegistration(id: HandshakeId, proof: bool, name: Option<Name>, next: HandshakeId, now: nat)
        returns (ok: bool)
      modifies this
      ensures View() == RegistrationFinished(old(View()), id, proof, name, next, now)
      ensures ok == (Registers(old(View()), id, proof, name, now)
                     && HasHandshakeRoom(Removed(Pruned(old(View()), now), id), now))
    {
      PruneHandshakes(now);
      if id !in handshakes { return false; }
      var h := handshakes[id];
      handshakes := Minus(handshakes, {id});
      if h.Login? { return false; }
      if id !in requests { return false; }
      requests := set x | x in requests && x != id;
      if h.code in accounts { return false; }
      var live := CapabilityIsLive(h.code, now);
      if !live || !proof || name.None? { return false; }
      available := set c | c in available && c != h.code;
      expiries := Minus(expiries, {h.code});
      accounts := accounts[h.code := name.value];
      ok := StoreHandshake(next, Login(h.code, now), now);
    }

    /** `bootstrap_finish_login` */
    method FinishLogin(id: HandshakeId, crypto: bool, token: Token, transport: TransportId, now: nat) returns (ok: bool)
      modifies this
      ensures View() == LoginFinished(old(View()), id, crypto, token, transport, now, inactivityLimit)
      ensures ok == LogsIn(old(View()), id, crypto, now, inactivityLimit)
      ensures ok ==> token in sessions && transport in transports && transports[transport] == token
    {
      PruneHandshakes(now);
      if id !in handshakes { return false; }
      var h := handshakes[id];
      handshakes := Minus(handshakes, {id});
      if h.Registration? || !crypto { return false; }
      ActiveMeansInSession(View(), h.code, now, inactivityLimit);
      var active := CodeHasActiveSession(h.code, now);
      if active { return false; }
      ok := IssueSession(h.code, token, Some(transport), now);
    }

    /** `finish_opaque_account` */
    method FinishOpaque(id: HandshakeId, registering: bool, proof: bool, name: Option<Name>, token: Token, now: nat)
        returns (ok: bool)
      modifies this
      ensures View() == OpaqueFinished(old(View()), id, registering, proof, name, token, now, inactivityLimit)
      ensures ok == (EnrolsByOpaque(old(View()), id, registering, proof, name, now)
                     || (!registering && LogsIn(old(View()), id, proof, now, inactivityLimit)))
      ensures ok ==> token in sessions && transports.Keys <= old(transports).Keys
    {
      PruneHandshakes(now);
      if id !in handshakes { return false; }
      var h := handshakes[id];
      handshakes := Minus(handshakes, {id});
      if h.Registration? != registering { return false; }
      if registering {
        if h.code in accounts { return false; }
        var live := CapabilityIsLive(h.code, now);
        if !live || !proof || name.None? { return false; }
        available := set c | c in available && c != h.code;
        expiries := Minus(expiries, {h.code});
        accounts := accounts[h.code := name.value];
      } else {
        if !proof { return false; }
        ActiveMeansInSession(View(), h.code, now, inactivityLimit);
        var active := CodeHasActiveSession(h.code, now);
        if active { return false; }
      }
      ok := IssueSession(h.code, token, None, now);
    }

    /** `active_session`: the session that the token still stands for. */
    method ActiveSession(token: Token, touch: bool, now: nat) returns (session: Option<Session>)
      modifies this`sessions, this`transports
      ensures View() == Resolved(old(View()), token, touch, now, inactivityLimit)
      ensures session.Some? <==>
              token in old(sessions) && SatSub(now, old(sessions)[token].lastActivity) < inactivityLimit
      ensures session.Some? ==> token in sessions && session.value == sessions[token]
      ensures session.Some? ==> session.value.code == old(sessions)[token].code
    {
      if token in sessions && SatSub(now, sessions[token].lastActivity) >= inactivityLimit {
        var gone := Forget(token);
        return None;
      }
      if token !in sessions { return None; }
      if touch { sessions := sessions[token := sessions[token].(lastActivity := now)]; }
      return Some(sessions[token]);
    }

    /** `logout_account`; an unknown token is refused. */
    method Forget(token: Token) returns (ok: bool)
      modifies this`sessions, this`transports
      ensures ok == (token in old(sessions))
      ensures View() == LoggedOut(old(View()), token)
    {
      if token !in sessions {
        UnknownLeaves(View(), token);
        return false;
      }
      sessions := map t | t in sessions && t != token :: sessions[t];
      transports := map x | x in transports && transports[x] != token :: transports[x];
      return true;
    }

    /** `session_sweeper` on the two session tables */
    method SweepSessions(now: nat)
      modifies this`sessions, this`transports
      ensures View() == Swept(old(View()), now, inactivityLimit)
    {
      sessions := map t | t in sessions && SatSub(now, sessions[t].lastActivity) < inactivityLimit :: sessions[t];
      transports := map x | x in transports && transports[x] in sessions :: transports[x];
    }
  }
}
