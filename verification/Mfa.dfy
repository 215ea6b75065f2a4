/** The MFA store (internal/mfa/store.go, totp.go): each transaction is one atomic function on the tables. */
module Mfa {
  import opened Options

  const CHALLENGE_LIFETIME: nat := 300
  const MAX_FAILURES: nat := 5
  const RECOVERY_CODES: nat := 10
  const PERIOD: nat := 30

  type Time = nat
  type User = nat
  type ChallengeId = nat
  type SessionId = nat
  type Secret = nat
  type Code = nat

  datatype Purpose = LogIn | Enroll | StepUp | RotateAuthorize | Rotate | Regenerate

  datatype Challenge = Challenge(
    user: User, session: Option<SessionId>, purpose: Purpose, remember: bool, expires: Time, failures: nat,
    consumed: bool, secret: Option<Secret>)

  datatype Enrolled = Enrolled(secret: Secret, last: int)
  datatype Recovery = Recovery(user: User, used: bool)
  datatype Session = Session(user: User, expires: Time, lastSeen: Time, verified: Time, impersonating: bool)

  datatype Consumption = Consumption(challenge: ChallengeId, user: User, purpose: Purpose, verified: bool)
  datatype Accepted = Accepted(secret: Secret, counter: int)
  datatype Holder = InChallenge(challenge: ChallengeId) | InEnrollment(user: User)

  /**
   The tables, and what happened so far: consumptions, accepted counters, recovery codes spent, and which challenge
   opened each session. `holders` says where each secret was put last.
  */
  datatype State = State(
    clock: Time,
    active: set<User>,
    challenges: map<ChallengeId, Challenge>,
    enrollments: map<User, Enrolled>,
    recovery: map<Code, Recovery>,
    sessions: map<SessionId, Session>,
    consumptions: seq<Consumption>,
    accepted: seq<Accepted>,
    spent: seq<Code>,
    openers: map<SessionId, ChallengeId>,
    holders: map<Secret, Holder>,
    nextChallenge: ChallengeId,
    nextSecret: Secret,
    nextCode: Code,
    nextSession: SessionId)

  function Initial(active: set<User>): State {
    State(0, active, map[], map[], map[], map[], [], [], [], map[], map[], 0, 0, 0, 0)
  }

  /** The one-time code of a secret and counter, the recovery code an input spells, and the configured lifetimes. */
  datatype Rules = Rules(
    code: (Secret, int) -> string, recovery: (User, string) -> Option<Code>, idle: nat, lifetime: nat,
    remembered: nat)

  // ---------------------------------------------------------------------------------------------------------
  // One-time codes
  // ---------------------------------------------------------------------------------------------------------

  predicate SixDigits(input: string) {
    |input| == 6 && forall k | 0 <= k < |input| :: '0' <= input[k] <= '9'
  }

  /** The first of the current, the previous and the next counter that matches; then the replay check. */
  function Match(code: (Secret, int) -> string, secret: Secret, input: string, now: Time, last: int): Option<int> {
    var current := now / PERIOD;
    if !SixDigits(input) then None
    else
      var found := if code(secret, current) == input then Some(current)
                   else if code(secret, current - 1) == input then Some(current - 1)
                   else if code(secret, current + 1) == input then Some(current + 1)
                   else None;
      if found.Some? && found.value > last then found else None
  }

  /** Whatever is accepted is the code of a counter within one period, and later than the last one. */
  lemma MatchIsFreshAndNear(code: (Secret, int) -> string, secret: Secret, input: string, now: Time, last: int)
    ensures var m := Match(code, secret, input, now, last);
            m.Some? ==> m.value > last && code(secret, m.value) == input && now / PERIOD - 1 <= m.value <= now / PERIOD + 1
  {
  }

  // ---------------------------------------------------------------------------------------------------------
  // Pieces of the transactions
  // ---------------------------------------------------------------------------------------------------------

  predicate HoldsSecret(p: Purpose) { p == Enroll || p == Rotate }

  predicate IsLive(c: Challenge, now: Time) { !c.consumed && c.expires > now }

  function Issue(s: State, user: User, session: Option<SessionId>, purpose: Purpose, remember: bool, now: Time): State {
    var id := s.nextChallenge;
    var c := Challenge(user, session, purpose, remember, now + CHALLENGE_LIFETIME, 0, false, None);
    if HoldsSecret(purpose) then
      s.(challenges := s.challenges[id := c.(secret := Some(s.nextSecret))], nextChallenge := id + 1,
         holders := s.holders[s.nextSecret := InChallenge(id)], nextSecret := s.nextSecret + 1)
    else s.(challenges := s.challenges[id := c], nextChallenge := id + 1)
  }

  /** Deleting sessions deletes their challenges with them. */
  function Keep(s: State, sessions: map<SessionId, Session>, challenges: map<ChallengeId, Challenge>): State {
    s.(sessions := sessions,
       challenges := map c | c in challenges && (challenges[c].session.Some? ==> challenges[c].session.value in sessions) ::
         challenges[c])
  }

  function WithoutSession(s: State, id: SessionId): State {
    Keep(s, s.sessions - {id}, s.challenges)
  }

  function ClearUser(s: State, user: User): State {
    Keep(s, map i | i in s.sessions && s.sessions[i].user != user :: s.sessions[i],
         map c | c in s.challenges && s.challenges[c].user != user :: s.challenges[c])
  }

  /** The recovery codes with `count` new ones of the user. */
  function WithCodes(recovery: map<Code, Recovery>, user: User, first: Code, count: nat): (r: map<Code, Recovery>)
    ensures forall k :: k in r <==> k in recovery || first <= k < first + count
    ensures forall k <- r :: r[k] == if first <= k < first + count then Recovery(user, false) else recovery[k]
  {
    if count == 0 then recovery
    else WithCodes(recovery, user, first, count - 1)[first + count - 1 := Recovery(user, false)]
  }

  function OthersCodes(s: State, user: User): map<Code, Recovery> {
    map k | k in s.recovery && s.recovery[k].user != user :: s.recovery[k]
  }

  function ReplaceRecovery(s: State, user: User): State {
    s.(recovery := WithCodes(OthersCodes(s, user), user, s.nextCode, RECOVERY_CODES),
       nextCode := s.nextCode + RECOVERY_CODES)
  }

  function Consume(s: State, c: ChallengeId, failures: nat, verified: bool): State
    requires c in s.challenges
  {
    s.(challenges := s.challenges[c := s.challenges[c].(consumed := true, failures := failures)],
       consumptions := s.consumptions + [Consumption(c, s.challenges[c].user, s.challenges[c].purpose, verified)])
  }

  /** A code of a secret is accepted: its counter becomes the last one of the user's enrollment, if it has that secret. */
  function Accept(s: State, user: User, secret: Secret, counter: int): State {
    s.(accepted := s.accepted + [Accepted(secret, counter)],
       enrollments := if user in s.enrollments && s.enrollments[user].secret == secret then
                        s.enrollments[user := Enrolled(secret, counter)]
                      else s.enrollments)
  }

  /** A pending secret becomes the user's, with the counter that proved it. */
  function Install(s: State, user: User, secret: Secret, counter: int, insert: bool): State {
    s.(accepted := s.accepted + [Accepted(secret, counter)],
       holders := s.holders[secret := InEnrollment(user)],
       enrollments := if insert || user in s.enrollments then s.enrollments[user := Enrolled(secret, counter)]
                      else s.enrollments)
  }

  function Spend(s: State, code: Code): State
    requires code in s.recovery
  {
    s.(recovery := s.recovery[code := s.recovery[code].(used := true)], spent := s.spent + [code])
  }

  function OpenSession(s: State, user: User, challenge: ChallengeId, lifetime: nat, now: Time): State {
    s.(sessions := s.sessions[s.nextSession := Session(user, now + lifetime, now, now, false)],
       openers := s.openers[s.nextSession := challenge], nextSession := s.nextSession + 1)
  }

  // ---------------------------------------------------------------------------------------------------------
  // The transactions
  // ---------------------------------------------------------------------------------------------------------

  function BeginLogin(s: State, user: User, credentialsOk: bool, remember: bool, now: Time): State {
    if user !in s.active || !credentialsOk then s
    else
      var kept := map c | c in s.challenges && !(s.challenges[c].user == user && s.challenges[c].session.None?) ::
        s.challenges[c];
      Issue(s.(challenges := kept), user, None, if user in s.enrollments then LogIn else Enroll, remember, now)
  }

  predicate ValidSession(rules: Rules, s: State, user: User, id: SessionId, now: Time) {
    && id in s.sessions
    && s.sessions[id].user == user
    && s.sessions[id].expires > now
    && s.sessions[id].lastSeen + rules.idle > now
  }

  predicate HasPending(s: State, id: SessionId, now: Time) {
    exists c | c in s.challenges :: s.challenges[c].session == Some(id) && IsLive(s.challenges[c], now)
  }

  function BeginAuthenticated(rules: Rules, s: State, user: User, id: SessionId, purpose: Purpose, now: Time): State {
    if purpose != StepUp && purpose != RotateAuthorize && purpose != Regenerate then s
    else if user !in s.active || !ValidSession(rules, s, user, id, now) then s
    else if purpose != StepUp && s.sessions[id].impersonating then s
    else if HasPending(s, id, now) then s
    else Issue(s, user, Some(id), purpose, false, now)
  }

  /** What the input proves; Unenrolled means there is nothing to check it against. */
  datatype Factor = Wrong | Unenrolled | ByCode(secret: Secret, counter: int) | ByRecovery(code: Code)

  function FactorOf(rules: Rules, s: State, c: Challenge, input: string, now: Time): Factor {
    if HoldsSecret(c.purpose) then
      if c.secret.None? then Unenrolled
      else
        var m := Match(rules.code, c.secret.value, input, now, -1);
        if m.Some? then ByCode(c.secret.value, m.value) else Wrong
    else if c.user !in s.enrollments then Unenrolled
    else
      var e := s.enrollments[c.user];
      var m := Match(rules.code, e.secret, input, now, e.last);
      if m.Some? then ByCode(e.secret, m.value)
      else
        var k := rules.recovery(c.user, input);
        if k.Some? && k.value in s.recovery && s.recovery[k.value].user == c.user && !s.recovery[k.value].used then
          ByRecovery(k.value)
        else Wrong
  }

  predicate MayVerify(rules: Rules, s: State, id: ChallengeId, session: Option<SessionId>, now: Time) {
    && id in s.challenges
    && s.challenges[id].user in s.active
    && IsLive(s.challenges[id], now)
    && s.challenges[id].failures < MAX_FAILURES
    && session == s.challenges[id].session
    && (session.Some? ==>
          && ValidSession(rules, s, s.challenges[id].user, session.value, now)
          && (s.challenges[id].purpose != StepUp ==> !s.sessions[session.value].impersonating))
  }

  function RecordFailure(s: State, id: ChallengeId): State
    requires id in s.challenges
  {
    var c := s.challenges[id];
    var failures := c.failures + 1;
    if failures < MAX_FAILURES then s.(challenges := s.challenges[id := c.(failures := failures)])
    else
      var s1 := Consume(s, id, failures, false);
      if c.session.Some? then WithoutSession(s1, c.session.value) else s1
  }

  function UseFactor(s: State, c: Challenge, factor: Factor): State {
    match factor
    case ByCode(secret, counter) =>
      if HoldsSecret(c.purpose) then ReplaceRecovery(Install(s, c.user, secret, counter, c.purpose == Enroll), c.user)
      else Accept(s, c.user, secret, counter)
    case ByRecovery(code) => if code in s.recovery then Spend(s, code) else s
    case _ => s
  }

  function Lifetime(rules: Rules, c: Challenge): nat { if c.remember then rules.remembered else rules.lifetime }

  function Complete(rules: Rules, s: State, id: ChallengeId, c: Challenge, now: Time): State {
    match c.purpose
    case LogIn => OpenSession(s, c.user, id, Lifetime(rules, c), now)
    case Enroll => OpenSession(s, c.user, id, Lifetime(rules, c), now)
    case StepUp =>
      if c.session.Some? && c.session.value in s.sessions then
        s.(sessions := s.sessions[c.session.value := s.sessions[c.session.value].(verified := now)])
      else s
    case RotateAuthorize => Issue(s, c.user, c.session, Rotate, false, now)
    case Regenerate => ClearUser(ReplaceRecovery(s, c.user), c.user)
    case Rotate => ClearUser(s, c.user)
  }

  function Verify(rules: Rules, s: State, id: ChallengeId, input: string, session: Option<SessionId>, passwordOk: bool,
                  now: Time): State {
    if !MayVerify(rules, s, id, session, now) then s
    else
      var c := s.challenges[id];
      var factor := FactorOf(rules, s, c, input, now);
      if factor == Unenrolled then s
      else if factor == Wrong || ((c.purpose == RotateAuthorize || c.purpose == Regenerate) && !passwordOk) then
        RecordFailure(s, id)
      else if c.purpose == Enroll && c.user in s.enrollments then s
      else Complete(rules, UseFactor(Consume(s, id, c.failures, true), c, factor), id, c, now)
  }

  function Reset(s: State, target: User): State {
    ClearUser(s.(enrollments := s.enrollments - {target},
                 recovery := OthersCodes(s, target)), target)
  }

  datatype Event =
    | EBeginLogin(user: User, credentialsOk: bool, remember: bool)
    | EBeginAuthenticated(user: User, session: SessionId, purpose: Purpose)
    | EVerify(challenge: ChallengeId, input: string, presented: Option<SessionId>, passwordOk: bool)
    | EReset(target: User)
    | ESetActive(user: User, isActive: bool)
    | EUseSession(session: SessionId, impersonating: bool)
    | EEndSession(session: SessionId)
    | EPurge

  function Act(rules: Rules, s: State, e: Event, now: Time): State {
    match e
    case EBeginLogin(user, ok, remember) => BeginLogin(s, user, ok, remember, now)
    case EBeginAuthenticated(user, session, purpose) => BeginAuthenticated(rules, s, user, session, purpose, now)
    case EVerify(id, input, presented, ok) => Verify(rules, s, id, input, presented, ok, now)
    case EReset(target) => Reset(s, target)
    case ESetActive(user, isActive) => s.(active := if isActive then s.active + {user} else s.active - {user})
    case EUseSession(id, impersonating) =>
      if id !in s.sessions then s
      else s.(sessions := s.sessions[id := s.sessions[id].(lastSeen := now, impersonating := impersonating)])
    case EEndSession(id) => WithoutSession(s, id)
    case EPurge =>
      Keep(s, map i | i in s.sessions && s.sessions[i].expires > now :: s.sessions[i],
           map c | c in s.challenges && s.challenges[c].expires > now :: s.challenges[c])
  }

  /** Time never goes back. */
  function Step(rules: Rules, s: State, e: Event, now: Time): State {
    if now < s.clock then s else Act(rules, s.(clock := now), e, now)
  }

  function Run(rules: Rules, active: set<User>, events: seq<(Event, Time)>): State {
    if events == [] then Initial(active)
    else
      var last := events[|events| - 1];
      Step(rules, Run(rules, active, events[..|events| - 1]), last.0, last.1)
  }
}
