/**
 What every transaction of the MFA store keeps: challenges and their consumption, the counters accepted for a secret,
 recovery codes, and the challenge each session came from.
*/
module MfaSteps {
  import opened Options
  import opened Mfa

  predicate WasConsumed(s: State, c: ChallengeId) {
    exists k | 0 <= k < |s.consumptions| :: s.consumptions[k].challenge == c
  }

  ghost predicate ChallengeOk(s: State, c: ChallengeId)
    requires c in s.challenges
  {
    var ch := s.challenges[c];
    && c < s.nextChallenge
    && ch.failures <= MAX_FAILURES
    && (ch.consumed <==> WasConsumed(s, c))
    && (!ch.consumed ==> ch.failures < MAX_FAILURES)
    && (ch.session.Some? ==> ch.session.value in s.sessions && s.sessions[ch.session.value].user == ch.user)
    && (ch.session.None? <==> ch.purpose == LogIn || ch.purpose == Enroll)
    && (!ch.consumed && HoldsSecret(ch.purpose) ==> HasOwnSecret(s, c))
    && (ch.purpose == Rotate ==> ch.user in s.enrollments)
  }

  ghost predicate HasOwnSecret(s: State, c: ChallengeId)
    requires c in s.challenges
  {
    var x := s.challenges[c].secret;
    x.Some? && x.value in s.holders && s.holders[x.value] == InChallenge(c)
  }

  /** A session has at most one live challenge. */
  ghost predicate OneLive(s: State, c: ChallengeId, d: ChallengeId)
    requires c in s.challenges && d in s.challenges
  {
    var live := IsLive(s.challenges[c], s.clock) && IsLive(s.challenges[d], s.clock) && s.challenges[c].session.Some?;
    live && s.challenges[c].session == s.challenges[d].session ==> c == d
  }

  ghost predicate ChallengesOk(s: State) {
    && (forall c {:trigger ChallengeOk(s, c)} | c in s.challenges :: ChallengeOk(s, c))
    && (forall c, d {:trigger OneLive(s, c, d)} | c in s.challenges && d in s.challenges :: OneLive(s, c, d))
  }

  ghost predicate ConsumptionsOk(s: State) {
    && (forall i, j | 0 <= i < j < |s.consumptions| :: s.consumptions[i].challenge != s.consumptions[j].challenge)
    && (forall k | 0 <= k < |s.consumptions| :: s.consumptions[k].challenge < s.nextChallenge)
    && (forall k | 0 <= k < |s.consumptions| && s.consumptions[k].challenge in s.challenges ::
          && s.consumptions[k].user == s.challenges[s.consumptions[k].challenge].user
          && s.consumptions[k].purpose == s.challenges[s.consumptions[k].challenge].purpose)
  }

  /** Counters accepted for one secret only grow, and the last one is kept with it. */
  ghost predicate EnrollmentOk(s: State, u: User)
    requires u in s.enrollments
  {
    && s.enrollments[u].secret in s.holders
    && s.holders[s.enrollments[u].secret] == InEnrollment(u)
    && (forall k | 0 <= k < |s.accepted| && s.accepted[k].secret == s.enrollments[u].secret ::
          s.accepted[k].counter <= s.enrollments[u].last)
  }

  ghost predicate SecretsOk(s: State) {
    && (forall u {:trigger EnrollmentOk(s, u)} | u in s.enrollments :: EnrollmentOk(s, u))
    && (forall x <- s.holders :: x < s.nextSecret)
    && (forall k | 0 <= k < |s.accepted| ::
          s.accepted[k].secret in s.holders && s.holders[s.accepted[k].secret].InEnrollment?)
    && (forall i, j | 0 <= i < j < |s.accepted| && s.accepted[i].secret == s.accepted[j].secret ::
          s.accepted[i].counter < s.accepted[j].counter)
  }

  ghost predicate RecoveryOk(s: State) {
    && (forall k <- s.recovery :: k < s.nextCode && (s.recovery[k].used <==> k in s.spent))
    && (forall k <- s.spent :: k < s.nextCode)
    && (forall i, j | 0 <= i < j < |s.spent| :: s.spent[i] != s.spent[j])
  }

  /** A verified login or enrollment. */
  predicate Admits(c: Consumption) { c.verified && (c.purpose == LogIn || c.purpose == Enroll) }

  /** The consumption of the session's challenge, by the session's user. */
  ghost predicate Opened(s: State, id: SessionId, c: Consumption)
    requires id in s.openers
  {
    c.challenge == s.openers[id] && Admits(c) && (id in s.sessions ==> c.user == s.sessions[id].user)
  }

  ghost predicate OpenerOk(s: State, id: SessionId)
    requires id in s.openers
  {
    && id < s.nextSession
    && (exists k | 0 <= k < |s.consumptions| :: Opened(s, id, s.consumptions[k]))
  }

  ghost predicate SessionsOk(s: State) {
    && (forall id {:trigger OpenerOk(s, id)} | id in s.openers :: OpenerOk(s, id))
    && (forall i, j | i in s.openers && j in s.openers :: s.openers[i] == s.openers[j] ==> i == j)
    && s.sessions.Keys <= s.openers.Keys
  }

  ghost predicate Inv(s: State) {
    && ChallengesOk(s)
    && ConsumptionsOk(s)
    && SecretsOk(s)
    && RecoveryOk(s)
    && SessionsOk(s)
  }

  // ---------------------------------------------------------------------------------------------------------
  // Deleting and ageing
  // ---------------------------------------------------------------------------------------------------------

  /** Fewer rows, rows of sessions updated, and later times keep everything. */
  lemma FewerKeeps(s: State, s': State)
    requires Inv(s)
    requires s'.challenges.Keys <= s.challenges.Keys && forall c <- s'.challenges :: s'.challenges[c] == s.challenges[c]
    requires s'.sessions.Keys <= s.sessions.Keys && forall i <- s'.sessions :: s'.sessions[i].user == s.sessions[i].user
    requires forall c <- s'.challenges :: s'.challenges[c].session.Some? ==> s'.challenges[c].session.value in s'.sessions
    requires forall c <- s'.challenges | s'.challenges[c].user in s.enrollments :: s'.challenges[c].user in s'.enrollments
    requires s'.enrollments.Keys <= s.enrollments.Keys && forall u <- s'.enrollments :: s'.enrollments[u] == s.enrollments[u]
    requires s'.recovery.Keys <= s.recovery.Keys && forall k <- s'.recovery :: s'.recovery[k] == s.recovery[k]
    requires s' == s.(clock := s'.clock, active := s'.active, challenges := s'.challenges, sessions := s'.sessions,
                      enrollments := s'.enrollments, recovery := s'.recovery)
    requires s.clock <= s'.clock
    ensures Inv(s')
  {
    forall c | c in s'.challenges ensures ChallengeOk(s', c) {
      assert ChallengeOk(s, c);
      SameConsumed(s, s', c);
    }
    forall c, d | c in s'.challenges && d in s'.challenges ensures OneLive(s', c, d) { assert OneLive(s, c, d); }
    forall u | u in s'.enrollments ensures EnrollmentOk(s', u) { assert EnrollmentOk(s, u); }
    forall i | i in s'.openers ensures OpenerOk(s', i) { SameOpener(s, s', i); }
  }

  lemma SameOpener(s: State, s': State, i: SessionId)
    requires i in s.openers && OpenerOk(s, i) && i in s'.openers && s'.openers[i] == s.openers[i]
    requires s'.consumptions == s.consumptions && s.nextSession <= s'.nextSession
    requires i in s'.sessions ==> i in s.sessions && s'.sessions[i].user == s.sessions[i].user
    ensures OpenerOk(s', i)
  {
    var k :| 0 <= k < |s.consumptions| && Opened(s, i, s.consumptions[k]);
    assert Opened(s', i, s'.consumptions[k]);
  }

  lemma SameConsumed(s: State, s': State, c: ChallengeId)
    requires s'.consumptions == s.consumptions
    ensures WasConsumed(s', c) <==> WasConsumed(s, c)
  {
  }

  lemma ClearKeeps(s: State, user: User)
    requires Inv(s)
    ensures Inv(ClearUser(s, user))
  {
    hide Inv;
    FewerKeeps(s, ClearUser(s, user));
  }

  // ---------------------------------------------------------------------------------------------------------
  // Issuing
  // ---------------------------------------------------------------------------------------------------------

  ghost predicate MayIssue(s: State, user: User, session: Option<SessionId>, purpose: Purpose) {
    && (session.None? <==> purpose == LogIn || purpose == Enroll)
    && (purpose == Rotate ==> user in s.enrollments)
    && (session.Some? ==>
          && session.value in s.sessions && s.sessions[session.value].user == user
          && !HasPending(s, session.value, s.clock))
  }

  lemma IssueKeeps(s: State, user: User, session: Option<SessionId>, purpose: Purpose, remember: bool)
    requires Inv(s) && MayIssue(s, user, session, purpose)
    ensures Inv(Issue(s, user, session, purpose, remember, s.clock))
  {
    hide ChallengesOk, MayIssue;
    var s' := Issue(s, user, session, purpose, remember, s.clock);
    IssueKeepsChallenges(s, user, session, purpose, remember);
    forall u | u in s'.enrollments ensures EnrollmentOk(s', u) { assert EnrollmentOk(s, u); }
    forall i | i in s'.openers ensures OpenerOk(s', i) { SameOpener(s, s', i); }
    assert s.nextSecret !in s.holders;
  }

  lemma IssueKeepsChallenges(s: State, user: User, session: Option<SessionId>, purpose: Purpose, remember: bool)
    requires Inv(s) && MayIssue(s, user, session, purpose)
    ensures ChallengesOk(Issue(s, user, session, purpose, remember, s.clock))
  {
    hide RecoveryOk, SessionsOk;
    var s', n := Issue(s, user, session, purpose, remember, s.clock), s.nextChallenge;
    assert s.nextSecret !in s.holders;
    assert !WasConsumed(s, n);
    forall c | c in s'.challenges ensures ChallengeOk(s', c) {
      SameConsumed(s, s', c);
      if c != n { assert ChallengeOk(s, c); }
    }
    forall c, d | c in s'.challenges && d in s'.challenges ensures OneLive(s', c, d) {
      if c != n && d != n { assert OneLive(s, c, d); }
    }
  }

  // ---------------------------------------------------------------------------------------------------------
  // Consuming
  // ---------------------------------------------------------------------------------------------------------

  lemma ConsumeKeeps(s: State, c: ChallengeId, failures: nat, verified: bool)
    requires Inv(s) && c in s.challenges && !s.challenges[c].consumed && failures <= MAX_FAILURES
    ensures Inv(Consume(s, c, failures, verified))
  {
    var s' := Consume(s, c, failures, verified);
    assert ChallengeOk(s, c);
    var last := |s.consumptions|;
    assert s'.consumptions[last].challenge == c;
    forall d | d in s'.challenges ensures ChallengeOk(s', d) {
      assert ChallengeOk(s, d);
      ConsumedAfter(s, s', c, d);
    }
    forall d, e | d in s'.challenges && e in s'.challenges ensures OneLive(s', d, e) { assert OneLive(s, d, e); }
    forall u | u in s'.enrollments ensures EnrollmentOk(s', u) { assert EnrollmentOk(s, u); }
    forall i | i in s'.openers ensures OpenerOk(s', i) {
      assert OpenerOk(s, i);
      var k :| 0 <= k < |s.consumptions| && Opened(s, i, s.consumptions[k]);
      assert s'.consumptions[k] == s.consumptions[k] && Opened(s', i, s'.consumptions[k]);
    }
  }

  lemma ConsumedAfter(s: State, s': State, c: ChallengeId, d: ChallengeId)
    requires |s'.consumptions| == |s.consumptions| + 1 && s'.consumptions[..|s.consumptions|] == s.consumptions
    requires s'.consumptions[|s.consumptions|].challenge == c
    ensures WasConsumed(s', d) <==> WasConsumed(s, d) || d == c
  {
    forall k | 0 <= k < |s.consumptions| ensures s'.consumptions[k] == s.consumptions[k] {
      assert s'.consumptions[..|s.consumptions|][k] == s.consumptions[k];
    }
  }

  lemma RecordFailureKeeps(s: State, c: ChallengeId)
    requires Inv(s) && c in s.challenges && !s.challenges[c].consumed
    ensures Inv(RecordFailure(s, c))
  {
    hide Inv, WithoutSession, Consume;
    var ch := s.challenges[c];
    LiveFailures(s, c);
    if ch.failures + 1 < MAX_FAILURES {
      CountKeeps(s, c);
    } else {
      ConsumeKeeps(s, c, ch.failures + 1, false);
      if ch.session.Some? { EndKeeps(Consume(s, c, ch.failures + 1, false), ch.session.value); }
    }
  }

  lemma EndKeeps(s: State, id: SessionId)
    requires Inv(s)
    ensures Inv(WithoutSession(s, id))
  {
    hide Inv;
    FewerKeeps(s, WithoutSession(s, id));
  }

  lemma CountKeeps(s: State, c: ChallengeId)
    requires Inv(s) && c in s.challenges && !s.challenges[c].consumed && s.challenges[c].failures + 1 < MAX_FAILURES
    ensures Inv(s.(challenges := s.challenges[c := s.challenges[c].(failures := s.challenges[c].failures + 1)]))
  {
    var s' := s.(challenges := s.challenges[c := s.challenges[c].(failures := s.challenges[c].failures + 1)]);
    forall d | d in s'.challenges ensures ChallengeOk(s', d) {
      assert ChallengeOk(s, d);
      SameConsumed(s, s', d);
    }
    forall d, e | d in s'.challenges && e in s'.challenges ensures OneLive(s', d, e) { assert OneLive(s, d, e); }
    forall u | u in s'.enrollments ensures EnrollmentOk(s', u) { assert EnrollmentOk(s, u); }
    forall i | i in s'.openers ensures OpenerOk(s', i) { SameOpener(s, s', i); }
  }

  // ---------------------------------------------------------------------------------------------------------
  // Factors
  // ---------------------------------------------------------------------------------------------------------

  /** Only secrets, enrollments and accepted counters differ. */
  lemma SecretsChangeKeeps(s: State, s': State)
    requires Inv(s) && SecretsOk(s')
    requires s' == s.(accepted := s'.accepted, enrollments := s'.enrollments, holders := s'.holders)
    requires s.enrollments.Keys <= s'.enrollments.Keys
    requires forall c <- s.challenges :: !s.challenges[c].consumed && HasOwnSecret(s, c) ==> HasOwnSecret(s', c)
    ensures Inv(s')
  {
    hide SecretsOk;
    forall c | c in s'.challenges ensures ChallengeOk(s', c) {
      assert ChallengeOk(s, c);
      SameConsumed(s, s', c);
    }
    forall c, d | c in s'.challenges && d in s'.challenges ensures OneLive(s', c, d) { assert OneLive(s, c, d); }
    forall i | i in s'.openers ensures OpenerOk(s', i) { SameOpener(s, s', i); }
  }

  lemma AcceptKeeps(s: State, user: User, secret: Secret, counter: int)
    requires Inv(s) && user in s.enrollments && s.enrollments[user].secret == secret && counter > s.enrollments[user].last
    ensures Inv(Accept(s, user, secret, counter))
  {
    var s' := Accept(s, user, secret, counter);
    assert EnrollmentOk(s, user);
    forall u | u in s'.enrollments ensures EnrollmentOk(s', u) { assert EnrollmentOk(s, u); }
    SecretsChangeKeeps(s, s');
  }

  /** A pending secret is nobody else's, and no code of it was accepted before. */
  lemma InstallKeeps(s: State, user: User, c: ChallengeId, secret: Secret, counter: int, insert: bool)
    requires Inv(s) && secret in s.holders && s.holders[secret] == InChallenge(c)
    requires c in s.challenges ==> s.challenges[c].consumed
    ensures Inv(Install(s, user, secret, counter, insert))
  {
    var s' := Install(s, user, secret, counter, insert);
    assert forall k | 0 <= k < |s.accepted| :: s.accepted[k].secret != secret;
    forall u | u in s'.enrollments ensures EnrollmentOk(s', u) {
      if u in s.enrollments { assert EnrollmentOk(s, u); }
    }
    SecretsChangeKeeps(s, s');
  }

  /** Only recovery codes differ. */
  lemma RecoveryChangeKeeps(s: State, s': State)
    requires Inv(s) && RecoveryOk(s')
    requires s' == s.(recovery := s'.recovery, spent := s'.spent, nextCode := s'.nextCode)
    ensures Inv(s')
  {
    hide RecoveryOk;
    forall c | c in s'.challenges ensures ChallengeOk(s', c) {
      assert ChallengeOk(s, c);
      SameConsumed(s, s', c);
    }
    forall c, d | c in s'.challenges && d in s'.challenges ensures OneLive(s', c, d) { assert OneLive(s, c, d); }
    forall u | u in s'.enrollments ensures EnrollmentOk(s', u) { assert EnrollmentOk(s, u); }
    forall i | i in s'.openers ensures OpenerOk(s', i) { SameOpener(s, s', i); }
  }

  lemma SpendKeeps(s: State, code: Code)
    requires Inv(s) && code in s.recovery && !s.recovery[code].used
    ensures Inv(Spend(s, code))
  {
    var s' := Spend(s, code);
    assert s'.spent[|s.spent|] == code;
    forall k ensures k in s'.spent <==> k in s.spent || k == code {}
    RecoveryChangeKeeps(s, s');
  }

  lemma ReplaceRecoveryKeeps(s: State, user: User)
    requires Inv(s)
    ensures Inv(ReplaceRecovery(s, user))
  {
    RecoveryChangeKeeps(s, ReplaceRecovery(s, user));
  }

  lemma OpenSessionKeeps(s: State, user: User, c: ChallengeId, lifetime: nat, now: Time)
    requires Inv(s)
    requires exists k | 0 <= k < |s.consumptions| ::
               s.consumptions[k].challenge == c && s.consumptions[k].user == user && Admits(s.consumptions[k])
    requires forall i <- s.openers :: s.openers[i] != c
    ensures Inv(OpenSession(s, user, c, lifetime, now))
  {
    var s' := OpenSession(s, user, c, lifetime, now);
    forall i | i in s.openers ensures i < s.nextSession { assert OpenerOk(s, i); }
    forall d | d in s'.challenges ensures ChallengeOk(s', d) {
      assert ChallengeOk(s, d);
      SameConsumed(s, s', d);
    }
    forall d, e | d in s'.challenges && e in s'.challenges ensures OneLive(s', d, e) { assert OneLive(s, d, e); }
    forall u | u in s'.enrollments ensures EnrollmentOk(s', u) { assert EnrollmentOk(s, u); }
    forall i | i in s'.openers ensures OpenerOk(s', i) {
      if i != s.nextSession {
        assert OpenerOk(s, i);
        SameOpener(s, s', i);
      } else {
        var k :| 0 <= k < |s.consumptions|
                 && s.consumptions[k].challenge == c && s.consumptions[k].user == user && Admits(s.consumptions[k]);
        assert Opened(s', i, s'.consumptions[k]);
      }
    }
  }

  // ---------------------------------------------------------------------------------------------------------
  // The transactions
  // ---------------------------------------------------------------------------------------------------------

  lemma BeginLoginKeeps(s: State, user: User, ok: bool, remember: bool)
    requires Inv(s)
    ensures Inv(BeginLogin(s, user, ok, remember, s.clock))
  {
    if user in s.active && ok {
      var kept := map c | c in s.challenges && !(s.challenges[c].user == user && s.challenges[c].session.None?) ::
        s.challenges[c];
      var s1 := s.(challenges := kept);
      forall c <- s1.challenges ensures s1.challenges[c].session.Some? ==> s1.challenges[c].session.value in s1.sessions {
        assert ChallengeOk(s, c);
      }
      hide Inv;
      FewerKeeps(s, s1);
      IssueKeeps(s1, user, None, if user in s.enrollments then LogIn else Enroll, remember);
    }
  }

  lemma BeginAuthenticatedKeeps(rules: Rules, s: State, user: User, session: SessionId, purpose: Purpose)
    requires Inv(s)
    ensures Inv(BeginAuthenticated(rules, s, user, session, purpose, s.clock))
  {
    hide Inv;
    if BeginAuthenticated(rules, s, user, session, purpose, s.clock) != s {
      IssueKeeps(s, user, Some(session), purpose, false);
    }
  }

  /** A challenge about to be consumed opened no session so far. */
  lemma NotOpenedBy(s: State, c: ChallengeId)
    requires Inv(s) && c in s.challenges && !s.challenges[c].consumed
    ensures forall i <- s.openers :: s.openers[i] != c
  {
    assert ChallengeOk(s, c);
    forall i | i in s.openers ensures s.openers[i] != c { assert OpenerOk(s, i); }
  }

  /** The factor that was checked is the challenge's own, or its user's. */
  ghost predicate FactorFits(s: State, id: ChallengeId, c: Challenge, factor: Factor) {
    match factor
    case ByCode(secret, counter) =>
      if HoldsSecret(c.purpose) then secret in s.holders && s.holders[secret] == InChallenge(id)
      else c.user in s.enrollments && s.enrollments[c.user].secret == secret && counter > s.enrollments[c.user].last
    case ByRecovery(code) =>
      !HoldsSecret(c.purpose) && c.user in s.enrollments && code in s.recovery && !s.recovery[code].used
    case _ => true
  }

  lemma FactorOfFits(rules: Rules, s: State, id: ChallengeId, input: string, now: Time)
    requires Inv(s) && id in s.challenges && !s.challenges[id].consumed
    ensures FactorFits(s, id, s.challenges[id], FactorOf(rules, s, s.challenges[id], input, now))
  {
    hide Match;
    assert ChallengeOk(s, id);
    var c := s.challenges[id];
    if c.user in s.enrollments {
      MatchIsFreshAndNear(rules.code, s.enrollments[c.user].secret, input, now, s.enrollments[c.user].last);
    }
  }

  lemma UseFactorKeeps(s: State, id: ChallengeId, c: Challenge, factor: Factor)
    requires Inv(s) && FactorFits(s, id, c, factor) && (id in s.challenges ==> s.challenges[id].consumed)
    ensures Inv(UseFactor(s, c, factor))
  {
    hide Inv, Install, ReplaceRecovery, Accept, Spend;
    match factor
    case ByCode(secret, counter) =>
      if HoldsSecret(c.purpose) {
        InstallKeeps(s, c.user, id, secret, counter, c.purpose == Enroll);
        ReplaceRecoveryKeeps(Install(s, c.user, secret, counter, c.purpose == Enroll), c.user);
      } else {
        AcceptKeeps(s, c.user, secret, counter);
      }
    case ByRecovery(code) => SpendKeeps(s, code);
    case _ =>
  }

  /** What the completion of a verified challenge needs, and the factor leaves alone. */
  ghost predicate Completable(s: State, id: ChallengeId, c: Challenge) {
    && (c.session.None? <==> c.purpose == LogIn || c.purpose == Enroll)
    && (c.session.Some? ==>
          && c.session.value in s.sessions && s.sessions[c.session.value].user == c.user
          && !HasPending(s, c.session.value, s.clock))
    && (exists k | 0 <= k < |s.consumptions| :: s.consumptions[k] == Consumption(id, c.user, c.purpose, true))
    && (forall i <- s.openers :: s.openers[i] != id)
  }

  lemma ConsumedIsCompletable(s: State, id: ChallengeId)
    requires Inv(s) && id in s.challenges && IsLive(s.challenges[id], s.clock)
    ensures Completable(Consume(s, id, s.challenges[id].failures, true), id, s.challenges[id])
  {
    var c, s' := s.challenges[id], Consume(s, id, s.challenges[id].failures, true);
    assert ChallengeOk(s, id);
    assert s'.consumptions[|s.consumptions|] == Consumption(id, c.user, c.purpose, true);
    NotOpenedBy(s, id);
    if c.session.Some? {
      forall d | d in s'.challenges && s'.challenges[d].session == c.session ensures !IsLive(s'.challenges[d], s'.clock) {
        assert OneLive(s, id, d);
      }
    }
  }

  lemma FactorKeepsCompletable(s: State, id: ChallengeId, c: Challenge, factor: Factor)
    requires Completable(s, id, c)
    ensures Completable(UseFactor(s, c, factor), id, c) && UseFactor(s, c, factor).clock == s.clock
  {
    FactorLeaves(s, c, factor);
    SameCompletable(s, UseFactor(s, c, factor), id, c);
  }

  lemma FactorLeaves(s: State, c: Challenge, factor: Factor)
    ensures var s' := UseFactor(s, c, factor);
            && s'.challenges == s.challenges && s'.sessions == s.sessions && s'.consumptions == s.consumptions
            && s'.openers == s.openers && s'.clock == s.clock
  {
  }

  lemma SameCompletable(s: State, s': State, id: ChallengeId, c: Challenge)
    requires Completable(s, id, c)
    requires s'.challenges == s.challenges && s'.sessions == s.sessions && s'.consumptions == s.consumptions
    requires s'.openers == s.openers && s'.clock == s.clock
    ensures Completable(s', id, c)
  {
  }

  lemma CompleteKeeps(rules: Rules, s: State, id: ChallengeId, c: Challenge)
    requires Inv(s) && Completable(s, id, c) && (!HoldsSecret(c.purpose) ==> c.user in s.enrollments)
    ensures Inv(Complete(rules, s, id, c, s.clock))
  {
    hide Inv, OpenSession, Issue, ClearUser, ReplaceRecovery;
    match c.purpose
    case LogIn => Opens(s, id, c); OpenSessionKeeps(s, c.user, id, Lifetime(rules, c), s.clock);
    case Enroll => Opens(s, id, c); OpenSessionKeeps(s, c.user, id, Lifetime(rules, c), s.clock);
    case StepUp =>
      var v := c.session.value;
      SessionsTouched(s, s.(sessions := s.sessions[v := s.sessions[v].(verified := s.clock)]));
    case RotateAuthorize => IssueKeeps(s, c.user, c.session, Rotate, false);
    case Regenerate =>
      ReplaceRecoveryKeeps(s, c.user);
      ClearKeeps(ReplaceRecovery(s, c.user), c.user);
    case Rotate => ClearKeeps(s, c.user);
  }

  lemma Opens(s: State, id: ChallengeId, c: Challenge)
    requires Completable(s, id, c) && (c.purpose == LogIn || c.purpose == Enroll)
    ensures exists k | 0 <= k < |s.consumptions| ::
              s.consumptions[k].challenge == id && s.consumptions[k].user == c.user && Admits(s.consumptions[k])
  {
    var k :| 0 <= k < |s.consumptions| && s.consumptions[k] == Consumption(id, c.user, c.purpose, true);
    assert s.consumptions[k].challenge == id && Admits(s.consumptions[k]);
  }

  lemma SessionsTouched(s: State, s': State)
    requires Inv(s) && s' == s.(sessions := s'.sessions) && s'.sessions.Keys == s.sessions.Keys
    requires forall i <- s.sessions :: s'.sessions[i].user == s.sessions[i].user
    ensures Inv(s')
  {
    forall c <- s'.challenges ensures s'.challenges[c].session.Some? ==> s'.challenges[c].session.value in s'.sessions {
      assert ChallengeOk(s, c);
    }
    hide Inv;
    FewerKeeps(s, s');
  }

  lemma VerifyKeeps(rules: Rules, s: State, id: ChallengeId, input: string, presented: Option<SessionId>, ok: bool)
    requires Inv(s)
    ensures Inv(Verify(rules, s, id, input, presented, ok, s.clock))
  {
    hide Inv, FactorOf, RecordFailure, Complete, UseFactor, Consume, FactorFits, Completable;
    if MayVerify(rules, s, id, presented, s.clock) {
      var c := s.challenges[id];
      var factor := FactorOf(rules, s, c, input, s.clock);
      RecordFailureKeeps(s, id);
      FactorOfFits(rules, s, id, input, s.clock);
      LiveFailures(s, id);
      ConsumeKeeps(s, id, c.failures, true);
      ConsumedIsCompletable(s, id);
      var s1 := Consume(s, id, c.failures, true);
      ConsumeFrame(s, id, c.failures, factor);
      UseFactorKeeps(s1, id, c, factor);
      FactorKeepsCompletable(s1, id, c, factor);
      if factor != Unenrolled && factor != Wrong {
        FactorOfEnrolled(s1, id, c, factor);
        CompleteKeeps(rules, UseFactor(s1, c, factor), id, c);
      }
    }
  }

  lemma FactorOfEnrolled(s: State, id: ChallengeId, c: Challenge, factor: Factor)
    requires FactorFits(s, id, c, factor) && factor != Unenrolled && factor != Wrong
    ensures !HoldsSecret(c.purpose) ==> c.user in UseFactor(s, c, factor).enrollments
  {
  }

  lemma LiveFailures(s: State, id: ChallengeId)
    requires Inv(s) && id in s.challenges
    ensures s.challenges[id].failures <= MAX_FAILURES
    ensures !s.challenges[id].consumed ==> s.challenges[id].failures < MAX_FAILURES
  {
    assert ChallengeOk(s, id);
  }

  lemma ConsumeFrame(s: State, id: ChallengeId, failures: nat, factor: Factor)
    requires id in s.challenges && FactorFits(s, id, s.challenges[id], factor)
    ensures var s1 := Consume(s, id, failures, true);
            id in s1.challenges && s1.challenges[id].consumed && s1.clock == s.clock
            && FactorFits(s1, id, s.challenges[id], factor)
  {
  }

  lemma ResetKeeps(s: State, target: User)
    requires Inv(s)
    ensures Inv(Reset(s, target))
  {
    var s1 := ClearUser(s, target);
    ClearKeeps(s, target);
    forall c <- s1.challenges ensures s1.challenges[c].session.Some? ==> s1.challenges[c].session.value in s1.sessions {
      assert ChallengeOk(s1, c);
    }
    hide Inv;
    FewerKeeps(s1, Reset(s, target));
  }

  lemma ClockKeeps(s: State, now: Time)
    requires Inv(s) && s.clock <= now
    ensures Inv(s.(clock := now))
  {
    forall c <- s.challenges ensures s.challenges[c].session.Some? ==> s.challenges[c].session.value in s.sessions {
      assert ChallengeOk(s, c);
    }
    hide Inv;
    FewerKeeps(s, s.(clock := now));
  }

  lemma HousekeepingKeeps(rules: Rules, s: State, e: Event)
    requires Inv(s) && (e.ESetActive? || e.EUseSession? || e.EEndSession? || e.EPurge?)
    ensures Inv(Act(rules, s, e, s.clock))
  {
    forall c <- s.challenges ensures s.challenges[c].session.Some? ==> s.challenges[c].session.value in s.sessions {
      assert ChallengeOk(s, c);
    }
    hide Inv;
    FewerKeeps(s, Act(rules, s, e, s.clock));
  }

  lemma StepKeeps(rules: Rules, s: State, e: Event, now: Time)
    requires Inv(s)
    ensures Inv(Step(rules, s, e, now))
  {
    hide Inv, Verify, BeginLogin, BeginAuthenticated, Reset;
    if s.clock <= now {
      var t := s.(clock := now);
      ClockKeeps(s, now);
      match e
      case EBeginLogin(user, ok, remember) => BeginLoginKeeps(t, user, ok, remember);
      case EBeginAuthenticated(user, session, purpose) => BeginAuthenticatedKeeps(rules, t, user, session, purpose);
      case EVerify(id, input, presented, ok) => VerifyKeeps(rules, t, id, input, presented, ok);
      case EReset(target) => ResetKeeps(t, target);
      case _ => HousekeepingKeeps(rules, t, e);
    }
  }
}
