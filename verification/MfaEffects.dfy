/** Exactly when a challenge is verified, and what a verification, a failure and a request then write. */
module MfaEffects {
  import opened Options
  import opened Mfa
  import opened MfaSteps
  import opened MfaRuns

  // ---------------------------------------------------------------------------------------------------------
  // What is accepted
  // ---------------------------------------------------------------------------------------------------------

  /** The input is the six digits of the counter, which is near and new; of several such counters one is preferred. */
  predicate IsCodeOf(code: (Secret, int) -> string, secret: Secret, input: string, now: Time, last: int, counter: int) {
    && |input| == 6 && (forall k | 0 <= k < 6 :: input[k] in "0123456789")
    && code(secret, counter) == input
    && now / 30 - 1 <= counter <= now / 30 + 1
    && counter > last
    && (counter != now / 30 ==> code(secret, now / 30) != input)
    && (counter == now / 30 + 1 ==> code(secret, now / 30 - 1) != input)
  }

  /** The current counter is preferred to the previous one and that to the next; only the preferred one may be too old. */
  lemma MatchIsExact(code: (Secret, int) -> string, secret: Secret, input: string, now: Time, last: int, counter: int)
    ensures Match(code, secret, input, now, last) == Some(counter) <==> IsCodeOf(code, secret, input, now, last, counter)
  {
    assert SixDigits(input) <==> |input| == 6 && forall k | 0 <= k < 6 :: input[k] in "0123456789" by {
      assert forall c: char :: c in "0123456789" <==> '0' <= c <= '9';
    }
  }

  /** An unused recovery code of the user. */
  predicate IsRecoveryOf(rules: Rules, s: State, user: User, input: string, code: Code) {
    rules.recovery(user, input) == Some(code) && code in s.recovery && s.recovery[code] == Recovery(user, false)
  }

  ghost predicate ProvesSecret(rules: Rules, secret: Secret, input: string, now: Time, last: int) {
    exists counter :: IsCodeOf(rules.code, secret, input, now, last, counter)
  }

  /** The challenge's own secret if it holds one, and otherwise the user's enrolled secret or a recovery code. */
  ghost predicate Proves(rules: Rules, s: State, c: Challenge, input: string, now: Time) {
    if c.purpose == Enroll || c.purpose == Rotate then
      c.secret.Some? && ProvesSecret(rules, c.secret.value, input, now, -1)
    else
      && c.user in s.enrollments
      && (|| ProvesSecret(rules, s.enrollments[c.user].secret, input, now, s.enrollments[c.user].last)
          || exists code :: IsRecoveryOf(rules, s, c.user, input, code))
  }

  /** There is a secret to check the input against. */
  predicate Checkable(s: State, c: Challenge) {
    if c.purpose == Enroll || c.purpose == Rotate then c.secret.Some? else c.user in s.enrollments
  }

  /** A live challenge with fewer than five failures of an active user, answered from the session it was issued to. */
  predicate Answerable(rules: Rules, s: State, id: ChallengeId, presented: Option<SessionId>, now: Time) {
    && id in s.challenges
    && var c := s.challenges[id];
    && c.user in s.active
    && !c.consumed && now < c.expires && c.failures <= 4
    && c.session == presented
    && (presented.Some? ==>
          && presented.value in s.sessions
          && var session := s.sessions[presented.value];
          && session.user == c.user && now < session.expires && now < session.lastSeen + rules.idle
          && (session.impersonating ==> c.purpose == StepUp))
  }

  lemma FactorProves(rules: Rules, s: State, c: Challenge, input: string, now: Time)
    ensures var factor := FactorOf(rules, s, c, input, now);
            && (factor == Unenrolled <==> !Checkable(s, c))
            && (factor != Unenrolled && factor != Wrong <==> Proves(rules, s, c, input, now))
            && match factor
               case ByCode(secret, counter) =>
                 if c.purpose == Enroll || c.purpose == Rotate then
                   c.secret == Some(secret) && IsCodeOf(rules.code, secret, input, now, -1, counter)
                 else
                   && c.user in s.enrollments && s.enrollments[c.user].secret == secret
                   && IsCodeOf(rules.code, secret, input, now, s.enrollments[c.user].last, counter)
               case ByRecovery(code) =>
                 && c.purpose != Enroll && c.purpose != Rotate && c.user in s.enrollments
                 && !ProvesSecret(rules, s.enrollments[c.user].secret, input, now, s.enrollments[c.user].last)
                 && IsRecoveryOf(rules, s, c.user, input, code)
               case _ => true
  {
    hide Match, IsCodeOf;
    if c.secret.Some? { SecretProves(rules, c.secret.value, input, now, -1); }
    if c.user in s.enrollments {
      SecretProves(rules, s.enrollments[c.user].secret, input, now, s.enrollments[c.user].last);
      if code: Code :| IsRecoveryOf(rules, s, c.user, input, code) { assert rules.recovery(c.user, input) == Some(code); }
      var k := rules.recovery(c.user, input);
      if k.Some? && k.value in s.recovery && s.recovery[k.value].user == c.user && !s.recovery[k.value].used {
        assert IsRecoveryOf(rules, s, c.user, input, k.value);
      }
    }
  }

  lemma SecretProves(rules: Rules, secret: Secret, input: string, now: Time, last: int)
    ensures var m := Match(rules.code, secret, input, now, last);
            && (m.Some? <==> ProvesSecret(rules, secret, input, now, last))
            && (m.Some? ==> IsCodeOf(rules.code, secret, input, now, last, m.value))
  {
    hide Match, IsCodeOf;
    var m := Match(rules.code, secret, input, now, last);
    if m.Some? { MatchIsExact(rules.code, secret, input, now, last, m.value); }
    if counter :| IsCodeOf(rules.code, secret, input, now, last, counter) {
      MatchIsExact(rules.code, secret, input, now, last, counter);
    }
  }

  /** The code of the current counter is accepted unless a code of this or a later counter was accepted before. */
  lemma CurrentCodeProves(rules: Rules, secret: Secret, input: string, now: Time, last: int)
    requires |input| == 6 && (forall k | 0 <= k < 6 :: input[k] in "0123456789")
    requires rules.code(secret, now / 30) == input
    ensures ProvesSecret(rules, secret, input, now, last) <==> last < now / 30
  {
    if last < now / 30 { assert IsCodeOf(rules.code, secret, input, now, last, now / 30); }
  }

  // ---------------------------------------------------------------------------------------------------------
  // What a verification does
  // ---------------------------------------------------------------------------------------------------------

  /** The password is asked for where recovery codes or secrets are replaced, and enrolling twice is refused. */
  predicate MayPass(s: State, c: Challenge, passwordOk: bool) {
    && (c.purpose == RotateAuthorize || c.purpose == Regenerate ==> passwordOk)
    && (c.purpose == Enroll ==> c.user !in s.enrollments)
  }

  /** All rows but the challenge itself, those of its user, and new ones, are as before. */
  ghost predicate OthersKept(s: State, s': State, user: User) {
    && s'.active == s.active && s'.clock == s.clock
    && (forall i <- s.sessions | s.sessions[i].user != user :: i in s'.sessions && s'.sessions[i] == s.sessions[i])
    && (forall d <- s.challenges | s.challenges[d].user != user ::
          d in s'.challenges && s'.challenges[d] == s.challenges[d])
    && (forall u <- s.enrollments | u != user :: u in s'.enrollments && s'.enrollments[u] == s.enrollments[u])
    && (forall k <- s.recovery | s.recovery[k].user != user :: k in s'.recovery && s'.recovery[k] == s.recovery[k])
    && (forall i <- s'.sessions :: i in s.sessions || s'.sessions[i].user == user)
    && (forall d <- s'.challenges :: d in s.challenges || s'.challenges[d].user == user)
    && (forall u <- s'.enrollments :: u in s.enrollments || u == user)
    && (forall k <- s'.recovery :: k in s.recovery || s'.recovery[k].user == user)
  }

  /**
   A challenge is consumed as verified exactly if it could be answered, the input proves it, and it may pass. Otherwise
   a checkable answer that does not prove counts as a failure, and anything else changes nothing.
  */
  lemma VerifiedExactly(rules: Rules, s: State, id: ChallengeId, input: string, presented: Option<SessionId>, ok: bool,
                        now: Time)
    ensures var s' := Verify(rules, s, id, input, presented, ok, now);
            if !Answerable(rules, s, id, presented, now) || !Checkable(s, s.challenges[id]) then s' == s
            else
              var c := s.challenges[id];
              if !Proves(rules, s, c, input, now)
                 || ((c.purpose == RotateAuthorize || c.purpose == Regenerate) && !ok) then
                s' == RecordFailure(s, id)
              else if c.purpose == Enroll && c.user in s.enrollments then s' == s
              else s'.consumptions == s.consumptions + [Consumption(id, c.user, c.purpose, true)]
  {
    hide FactorOf, Proves, Match, RecordFailure, UseFactor, Complete;
    if Answerable(rules, s, id, presented, now) {
      var c := s.challenges[id];
      var factor, t := FactorOf(rules, s, c, input, now), Consume(s, id, c.failures, true);
      FactorProves(rules, s, c, input, now);
      FactorLeaves(t, c, factor);
      CompleteLeaves(rules, UseFactor(t, c, factor), id, c, now);
    }
  }

  lemma CompleteLeaves(rules: Rules, s: State, id: ChallengeId, c: Challenge, now: Time)
    ensures Complete(rules, s, id, c, now).consumptions == s.consumptions
  {
    hide OpenSession, Issue, ClearUser, ReplaceRecovery;
    match c.purpose
    case LogIn => OpeningLeaves(s, id, c, Lifetime(rules, c), now);
    case Enroll => OpeningLeaves(s, id, c, Lifetime(rules, c), now);
    case StepUp =>
    case RotateAuthorize => IssuingLeaves(s, c, now);
    case Regenerate => ClearingLeaves(ReplaceRecovery(s, c.user), c.user); ReplacingLeaves(s, c.user);
    case Rotate => ClearingLeaves(s, c.user);
  }

  lemma OpeningLeaves(s: State, id: ChallengeId, c: Challenge, lifetime: nat, now: Time)
    ensures OpenSession(s, c.user, id, lifetime, now).consumptions == s.consumptions
  {
  }

  lemma IssuingLeaves(s: State, c: Challenge, now: Time)
    ensures Issue(s, c.user, c.session, Rotate, false, now).consumptions == s.consumptions
  {
  }

  lemma ClearingLeaves(s: State, user: User)
    ensures ClearUser(s, user).consumptions == s.consumptions
  {
  }

  lemma ReplacingLeaves(s: State, user: User)
    ensures ReplaceRecovery(s, user).consumptions == s.consumptions
  {
  }

  /** A failure is counted; the fifth one ends the challenge, and the session it was issued to with all its challenges. */
  lemma FailureIsCounted(s: State, id: ChallengeId)
    requires Inv(s) && id in s.challenges && !s.challenges[id].consumed
    ensures var c, s' := s.challenges[id], RecordFailure(s, id);
            if c.failures < 4 then
              s' == s.(challenges := s.challenges[id := c.(failures := c.failures + 1)])
            else
              && s'.consumptions == s.consumptions + [Consumption(id, c.user, c.purpose, false)]
              && (forall i :: i in s'.sessions <==> i in s.sessions && c.session != Some(i))
              && (forall i <- s'.sessions :: s'.sessions[i] == s.sessions[i])
              && (forall d :: d in s'.challenges <==>
                    d in s.challenges && (c.session.Some? ==> s.challenges[d].session != c.session))
              && (forall d <- s'.challenges ::
                    s'.challenges[d] == if d == id then c.(consumed := true, failures := 5) else s.challenges[d])
              && s'.enrollments == s.enrollments && s'.recovery == s.recovery && s'.active == s.active
  {
    assert ChallengeOk(s, id);
    forall d | d in s.challenges ensures s.challenges[d].session.Some? ==> s.challenges[d].session.value in s.sessions {
      assert ChallengeOk(s, d);
    }
  }

  /** Passing a factor uses it up: the counter is the user's last one, or the recovery code is used. */
  ghost predicate UsedUp(rules: Rules, s: State, enrollments: map<User, Enrolled>, recovery: map<Code, Recovery>,
                         c: Challenge, input: string, now: Time) {
    || (&& c.user in s.enrollments && c.user in enrollments
        && enrollments == s.enrollments[c.user := enrollments[c.user]]
        && enrollments[c.user].secret == s.enrollments[c.user].secret
        && IsCodeOf(rules.code, s.enrollments[c.user].secret, input, now, s.enrollments[c.user].last,
                    enrollments[c.user].last)
        && recovery == s.recovery)
    || (&& c.user in s.enrollments && enrollments == s.enrollments
        && exists code :: IsRecoveryOf(rules, s, c.user, input, code)
                          && recovery == s.recovery[code := Recovery(c.user, true)])
  }

  /** The secret of the challenge becomes the user's, with the counter that proved it. */
  ghost predicate Enrolls(rules: Rules, s: State, enrollments: map<User, Enrolled>, c: Challenge, input: string,
                          now: Time) {
    && c.secret.Some? && c.user in enrollments
    && enrollments == s.enrollments[c.user := enrollments[c.user]]
    && enrollments[c.user].secret == c.secret.value
    && IsCodeOf(rules.code, c.secret.value, input, now, -1, enrollments[c.user].last)
  }

  /** Ten unused recovery codes of the user that nobody had before, and none of the user's old ones. */
  ghost predicate NewCodes(s: State, recovery: map<Code, Recovery>, next: Code, user: User) {
    var first := next - 10;
    && s.nextCode <= first && (forall k <- s.recovery :: k < s.nextCode)
    && (forall k :: k in recovery <==> (k in s.recovery && s.recovery[k].user != user) || first <= k < next)
    && (forall k <- recovery :: recovery[k] == if k >= first then Recovery(user, false) else s.recovery[k])
  }

  lemma FactorEffect(rules: Rules, s: State, c: Challenge, input: string, now: Time, t: State)
    requires Proves(rules, s, c, input, now) && (c.purpose == Rotate ==> c.user in s.enrollments)
    requires t == s.(challenges := t.challenges, consumptions := t.consumptions)
    requires forall k <- s.recovery :: k < s.nextCode
    ensures var t' := UseFactor(t, c, FactorOf(rules, s, c, input, now));
            && t'.challenges == t.challenges && t'.sessions == t.sessions && t'.consumptions == t.consumptions
            && t'.openers == t.openers && t'.clock == t.clock && t'.active == t.active
            && t'.nextChallenge == t.nextChallenge && t'.nextSecret == t.nextSecret && t'.nextSession == t.nextSession
            && (c.purpose == Enroll || c.purpose == Rotate ==>
                  Enrolls(rules, s, t'.enrollments, c, input, now) && NewCodes(s, t'.recovery, t'.nextCode, c.user))
            && (c.purpose != Enroll && c.purpose != Rotate ==>
                  && UsedUp(rules, s, t'.enrollments, t'.recovery, c, input, now)
                  && t'.nextCode == s.nextCode && t'.recovery.Keys == s.recovery.Keys)
            && (forall k <- t'.recovery :: k < t'.nextCode)
  {
    hide FactorOf, Proves, Match, IsCodeOf, WithCodes;
    FactorProves(rules, s, c, input, now);
    var factor := FactorOf(rules, s, c, input, now);
    if factor.ByRecovery? { assert IsRecoveryOf(rules, s, c.user, input, factor.code); }
  }

  lemma ReplacedCodes(s: State, t: State, user: User)
    requires t.recovery.Keys == s.recovery.Keys && s.nextCode == t.nextCode && forall k <- s.recovery :: k < s.nextCode
    requires forall k <- s.recovery :: t.recovery[k].user == s.recovery[k].user
    requires forall k <- s.recovery | s.recovery[k].user != user :: t.recovery[k] == s.recovery[k]
    ensures var t' := ReplaceRecovery(t, user);
            && t' == t.(recovery := t'.recovery, nextCode := t'.nextCode)
            && NewCodes(s, t'.recovery, t'.nextCode, user)
            && (forall k <- s.recovery | s.recovery[k].user != user ::
                  k in t'.recovery && t'.recovery[k] == s.recovery[k])
            && (forall k <- t'.recovery :: k in s.recovery || t'.recovery[k].user == user)
  {
  }

  lemma PassingKeepsOthers(rules: Rules, s: State, t: State, c: Challenge, input: string, now: Time)
    requires if c.purpose == Enroll || c.purpose == Rotate then
               Enrolls(rules, s, t.enrollments, c, input, now) && NewCodes(s, t.recovery, t.nextCode, c.user)
             else UsedUp(rules, s, t.enrollments, t.recovery, c, input, now)
    ensures forall u <- s.enrollments | u != c.user :: u in t.enrollments && t.enrollments[u] == s.enrollments[u]
    ensures forall u <- t.enrollments :: u in s.enrollments || u == c.user
    ensures forall k <- s.recovery | s.recovery[k].user != c.user :: k in t.recovery && t.recovery[k] == s.recovery[k]
    ensures forall k <- t.recovery :: k in s.recovery || t.recovery[k].user == c.user
    ensures c.purpose != Enroll && c.purpose != Rotate ==>
              && t.recovery.Keys == s.recovery.Keys
              && (forall k <- s.recovery :: t.recovery[k].user == s.recovery[k].user)
              && t.enrollments.Keys == s.enrollments.Keys
              && c.user in s.enrollments && t.enrollments[c.user].secret == s.enrollments[c.user].secret
  {
    hide IsCodeOf;
  }

  lemma SessionKeepsOthers(s: State, s': State, user: User, id: ChallengeId, i: SessionId)
    requires s'.active == s.active && s'.clock == s.clock
    requires i in s'.sessions && s'.sessions[i].user == user && i !in s.sessions
    requires s'.sessions == s.sessions[i := s'.sessions[i]]
    requires id in s.challenges && s.challenges[id].user == user
    requires id in s'.challenges && s'.challenges == s.challenges[id := s'.challenges[id]]
    requires forall u <- s.enrollments | u != user :: u in s'.enrollments && s'.enrollments[u] == s.enrollments[u]
    requires forall u <- s'.enrollments :: u in s.enrollments || u == user
    requires forall k <- s.recovery | s.recovery[k].user != user :: k in s'.recovery && s'.recovery[k] == s.recovery[k]
    requires forall k <- s'.recovery :: k in s.recovery || s'.recovery[k].user == user
    ensures OthersKept(s, s', user)
  {
  }

  /** The challenge of a login or enrollment opens one session, for its own user, and touches no other. */
  lemma LoginOpensSession(rules: Rules, active: set<User>, events: seq<(Event, Time)>, s: State, id: ChallengeId,
                          input: string, ok: bool, now: Time)
    requires s == Run(rules, active, events) && Answerable(rules, s, id, None, now)
    requires s.challenges[id].purpose in {LogIn, Enroll} && MayPass(s, s.challenges[id], ok)
    requires Proves(rules, s, s.challenges[id], input, now)
    ensures var c, s', i := s.challenges[id], Verify(rules, s, id, input, None, ok, now), s.nextSession;
            && i !in s.sessions
            && (var lifetime := if c.remember then rules.remembered else rules.lifetime;
                s'.sessions == s.sessions[i := Session(c.user, now + lifetime, now, now, false)])
            && s'.openers == s.openers[i := id]
            && s'.challenges == s.challenges[id := c.(consumed := true)]
            && OthersKept(s, s', c.user)
            && (c.purpose == LogIn ==> UsedUp(rules, s, s'.enrollments, s'.recovery, c, input, now))
            && (c.purpose == Enroll ==>
                  Enrolls(rules, s, s'.enrollments, c, input, now) && NewCodes(s, s'.recovery, s'.nextCode, c.user))
  {
    hide FactorOf, Proves, Match, IsCodeOf, Inv, Run, WithCodes, UseFactor, UsedUp, Enrolls,
         NewCodes, OthersKept;
    RunKeeps(rules, active, events);
    NewSession(s);
    SessionsOfChallenges(s);
    FreshCodes(s);
    var c := s.challenges[id];
    FactorProves(rules, s, c, input, now);
    FactorEffect(rules, s, c, input, now, Consume(s, id, c.failures, true));
    var t := UseFactor(Consume(s, id, c.failures, true), c, FactorOf(rules, s, c, input, now));
    PassingKeepsOthers(rules, s, t, c, input, now);
    SessionKeepsOthers(s, Verify(rules, s, id, input, None, ok, now), c.user, id, s.nextSession);
  }

  lemma NewSession(s: State)
    requires Inv(s)
    ensures s.nextSession !in s.sessions && s.nextSession !in s.openers
    ensures s.nextChallenge !in s.challenges
    ensures forall c <- s.challenges | s.challenges[c].purpose == Rotate :: s.challenges[c].user in s.enrollments
  {
    forall i <- s.openers ensures i < s.nextSession { assert OpenerOk(s, i); }
    forall c <- s.challenges
      ensures c < s.nextChallenge && (s.challenges[c].purpose == Rotate ==> s.challenges[c].user in s.enrollments)
    {
      assert ChallengeOk(s, c);
    }
  }

  lemma FreshCodes(s: State)
    requires Inv(s)
    ensures forall k <- s.recovery :: k < s.nextCode
  {
  }

  /** Stepping up marks the session as just verified. */
  lemma StepUpMarksSession(rules: Rules, active: set<User>, events: seq<(Event, Time)>, s: State, id: ChallengeId,
                           input: string, i: SessionId, ok: bool, now: Time)
    requires s == Run(rules, active, events) && Answerable(rules, s, id, Some(i), now)
    requires s.challenges[id].purpose == StepUp && Proves(rules, s, s.challenges[id], input, now)
    ensures var c, s' := s.challenges[id], Verify(rules, s, id, input, Some(i), ok, now);
            && s'.sessions == s.sessions[i := s.sessions[i].(verified := now)]
            && s'.challenges == s.challenges[id := c.(consumed := true)]
            && OthersKept(s, s', c.user)
            && UsedUp(rules, s, s'.enrollments, s'.recovery, c, input, now)
  {
    hide FactorOf, Proves, Match, IsCodeOf, Inv, Run, WithCodes, UseFactor, UsedUp, Enrolls, NewCodes;
    RunKeeps(rules, active, events);
    NewSession(s);
    SessionsOfChallenges(s);
    FreshCodes(s);
    var c := s.challenges[id];
    FactorProves(rules, s, c, input, now);
    FactorEffect(rules, s, c, input, now, Consume(s, id, c.failures, true));
    var t := UseFactor(Consume(s, id, c.failures, true), c, FactorOf(rules, s, c, input, now));
    PassingKeepsOthers(rules, s, t, c, input, now);
  }

  /** Authorizing a rotation issues the challenge that holds the new secret, to the same session. */
  lemma AuthorizingIssuesRotation(rules: Rules, active: set<User>, events: seq<(Event, Time)>, s: State, id: ChallengeId,
                                  input: string, i: SessionId, ok: bool, now: Time)
    requires s == Run(rules, active, events) && Answerable(rules, s, id, Some(i), now)
    requires s.challenges[id].purpose == RotateAuthorize && Proves(rules, s, s.challenges[id], input, now) && ok
    ensures var c, s', n := s.challenges[id], Verify(rules, s, id, input, Some(i), ok, now), s.nextChallenge;
            && n !in s.challenges
            && s'.challenges == s.challenges[id := c.(consumed := true)]
                [n := Challenge(c.user, Some(i), Rotate, false, now + 300, 0, false, Some(s.nextSecret))]
            && s'.sessions == s.sessions
            && OthersKept(s, s', c.user)
            && UsedUp(rules, s, s'.enrollments, s'.recovery, c, input, now)
  {
    hide FactorOf, Proves, Match, IsCodeOf, Inv, Run, WithCodes, UseFactor, UsedUp, Enrolls, NewCodes;
    RunKeeps(rules, active, events);
    NewSession(s);
    SessionsOfChallenges(s);
    FreshCodes(s);
    var c := s.challenges[id];
    FactorProves(rules, s, c, input, now);
    FactorEffect(rules, s, c, input, now, Consume(s, id, c.failures, true));
    var t := UseFactor(Consume(s, id, c.failures, true), c, FactorOf(rules, s, c, input, now));
    PassingKeepsOthers(rules, s, t, c, input, now);
  }

  /** Everyone is logged out, and what they were asked is gone. */
  ghost predicate LoggedOut(s: State, s': State, user: User) {
    && (forall i :: i in s'.sessions <==> i in s.sessions && s.sessions[i].user != user)
    && (forall d :: d in s'.challenges <==> d in s.challenges && s.challenges[d].user != user)
  }

  /** A rotation installs the new secret and new recovery codes, and logs the user out everywhere. */
  lemma RotationReplacesSecret(rules: Rules, active: set<User>, events: seq<(Event, Time)>, s: State, id: ChallengeId,
                               input: string, i: SessionId, ok: bool, now: Time)
    requires s == Run(rules, active, events) && Answerable(rules, s, id, Some(i), now)
    requires s.challenges[id].purpose == Rotate && Proves(rules, s, s.challenges[id], input, now)
    ensures var c, s' := s.challenges[id], Verify(rules, s, id, input, Some(i), ok, now);
            && Enrolls(rules, s, s'.enrollments, c, input, now)
            && NewCodes(s, s'.recovery, s'.nextCode, c.user)
            && LoggedOut(s, s', c.user) && OthersKept(s, s', c.user)
  {
    hide FactorOf, Proves, Match, IsCodeOf, Inv, Run, WithCodes, UseFactor, UsedUp, Enrolls, NewCodes;
    RunKeeps(rules, active, events);
    NewSession(s);
    SessionsOfChallenges(s);
    FreshCodes(s);
    var c := s.challenges[id];
    FactorProves(rules, s, c, input, now);
    FactorEffect(rules, s, c, input, now, Consume(s, id, c.failures, true));
    var t := UseFactor(Consume(s, id, c.failures, true), c, FactorOf(rules, s, c, input, now));
    PassingKeepsOthers(rules, s, t, c, input, now);
  }

  /** Regenerating replaces the recovery codes, and logs the user out everywhere. */
  lemma RegenerationReplacesCodes(rules: Rules, active: set<User>, events: seq<(Event, Time)>, s: State, id: ChallengeId,
                                  input: string, i: SessionId, ok: bool, now: Time)
    requires s == Run(rules, active, events) && Answerable(rules, s, id, Some(i), now)
    requires s.challenges[id].purpose == Regenerate && Proves(rules, s, s.challenges[id], input, now) && ok
    ensures var c, s' := s.challenges[id], Verify(rules, s, id, input, Some(i), ok, now);
            && NewCodes(s, s'.recovery, s'.nextCode, c.user)
            && s'.enrollments.Keys == s.enrollments.Keys && s'.enrollments[c.user].secret == s.enrollments[c.user].secret
            && LoggedOut(s, s', c.user) && OthersKept(s, s', c.user)
  {
    hide FactorOf, Proves, Match, IsCodeOf, Inv, Run, WithCodes, UseFactor, UsedUp, Enrolls, NewCodes, ReplaceRecovery;
    RunKeeps(rules, active, events);
    NewSession(s);
    SessionsOfChallenges(s);
    FreshCodes(s);
    var c := s.challenges[id];
    FactorProves(rules, s, c, input, now);
    FactorEffect(rules, s, c, input, now, Consume(s, id, c.failures, true));
    var t := UseFactor(Consume(s, id, c.failures, true), c, FactorOf(rules, s, c, input, now));
    PassingKeepsOthers(rules, s, t, c, input, now);
    ReplacedCodes(s, t, c.user);
  }

  lemma SessionsOfChallenges(s: State)
    requires Inv(s)
    ensures forall c <- s.challenges | s.challenges[c].session.Some? ::
              s.challenges[c].session.value in s.sessions
              && s.sessions[s.challenges[c].session.value].user == s.challenges[c].user
  {
    forall c <- s.challenges | s.challenges[c].session.Some?
      ensures s.challenges[c].session.value in s.sessions
              && s.sessions[s.challenges[c].session.value].user == s.challenges[c].user
    {
      assert ChallengeOk(s, c);
    }
  }

  // ---------------------------------------------------------------------------------------------------------
  // What a request does
  // ---------------------------------------------------------------------------------------------------------

  /** An active user with the right password is asked for a code, or enrolled; earlier logins of theirs are dropped. */
  lemma LoginAsks(rules: Rules, active: set<User>, events: seq<(Event, Time)>, s: State, user: User, ok: bool,
                  remember: bool, now: Time)
    requires s == Run(rules, active, events)
    ensures var s', n := BeginLogin(s, user, ok, remember, now), s.nextChallenge;
            if user !in s.active || !ok then s' == s
            else
              && n !in s.challenges && n in s'.challenges
              && s'.challenges[n].user == user && s'.challenges[n].session.None? && s'.challenges[n].remember == remember
              && s'.challenges[n].purpose == (if user in s.enrollments then LogIn else Enroll)
              && s'.challenges[n].expires == now + 300 && s'.challenges[n].failures == 0 && !s'.challenges[n].consumed
              && (user in s.enrollments <==> s'.challenges[n].secret.None?)
              && (user !in s.enrollments ==> s'.challenges[n].secret == Some(s.nextSecret) && s.nextSecret !in s.holders)
              && (forall d | d != n :: d in s'.challenges <==>
                    d in s.challenges && !(s.challenges[d].user == user && s.challenges[d].purpose in {LogIn, Enroll}))
              && (forall d | d != n && d in s'.challenges :: s'.challenges[d] == s.challenges[d])
              && s'.sessions == s.sessions && s'.enrollments == s.enrollments && s'.recovery == s.recovery
  {
    hide Run;
    RunKeeps(rules, active, events);
    NewSession(s);
    forall d | d in s.challenges
      ensures s.challenges[d].session.None? <==> s.challenges[d].purpose in {LogIn, Enroll}
    {
      assert ChallengeOk(s, d);
    }
    NewSecret(s);
  }

  lemma NewSecret(s: State)
    requires Inv(s)
    ensures s.nextSecret !in s.holders
  {
  }

  /** A session of an active user is asked for a code exactly if it is valid, not impersonating, and not asked already. */
  lemma SessionAsks(rules: Rules, active: set<User>, events: seq<(Event, Time)>, s: State, user: User, i: SessionId,
                    purpose: Purpose, now: Time)
    requires s == Run(rules, active, events)
    ensures var s', n := BeginAuthenticated(rules, s, user, i, purpose, now), s.nextChallenge;
            if && purpose in {StepUp, RotateAuthorize, Regenerate} && user in s.active
               && i in s.sessions && s.sessions[i].user == user
               && now < s.sessions[i].expires && now < s.sessions[i].lastSeen + rules.idle
               && (s.sessions[i].impersonating ==> purpose == StepUp)
               && (forall d <- s.challenges | s.challenges[d].session == Some(i) ::
                     s.challenges[d].consumed || s.challenges[d].expires <= now)
            then
              && n !in s.challenges
              && s'.challenges == s.challenges[n := Challenge(user, Some(i), purpose, false, now + 300, 0, false, None)]
              && s'.sessions == s.sessions && s'.enrollments == s.enrollments && s'.recovery == s.recovery
            else s' == s
  {
    hide Run, Inv;
    RunKeeps(rules, active, events);
    NewSession(s);
  }

  /** Logging out ends one session with what it was asked; purging ends what has expired; using a session dates it. */
  lemma HousekeepingExactly(rules: Rules, active: set<User>, events: seq<(Event, Time)>, s: State, i: SessionId,
                            impersonating: bool, now: Time)
    requires s == Run(rules, active, events) && i in s.sessions
    ensures var s' := Act(rules, s, EEndSession(i), now);
            && s'.sessions == s.sessions - {i}
            && (forall d :: d in s'.challenges <==> d in s.challenges && s.challenges[d].session != Some(i))
            && (forall d <- s'.challenges :: s'.challenges[d] == s.challenges[d])
    ensures var s' := Act(rules, s, EUseSession(i, impersonating), now);
            s' == s.(sessions := s.sessions[i := s.sessions[i].(lastSeen := now, impersonating := impersonating)])
    ensures var s' := Act(rules, s, EPurge, now);
            && (forall j :: j in s'.sessions <==> j in s.sessions && now < s.sessions[j].expires)
            && (forall d :: d in s'.challenges <==>
                  && d in s.challenges && now < s.challenges[d].expires
                  && (s.challenges[d].session.Some? ==> now < s.sessions[s.challenges[d].session.value].expires))
            && (forall j <- s'.sessions :: s'.sessions[j] == s.sessions[j])
            && (forall d <- s'.challenges :: s'.challenges[d] == s.challenges[d])
  {
    hide Run, Inv, BeginLogin, BeginAuthenticated, Verify, Reset;
    RunKeeps(rules, active, events);
    SessionsOfChallenges(s);
  }
}
