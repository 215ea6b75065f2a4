/** The MFA store statement by statement: each method is one transaction on the tables. */
module MfaStore {
  import opened Options
  import M = Mfa

  class Store {
    const rules: M.Rules
    var state: M.State

    constructor (rules: M.Rules, active: set<M.User>)
      ensures this.rules == rules && state == M.Initial(active)
    {
      this.rules, this.state := rules, M.Initial(active);
    }

    method BeginLogin(user: M.User, credentialsOk: bool, remember: bool, now: M.Time)
      modifies this
      ensures state == M.BeginLogin(old(state), user, credentialsOk, remember, now)
    {
      if user !in state.active || !credentialsOk { return; }
      var purpose := M.LogIn;
      if user !in state.enrollments { purpose := M.Enroll; }
      state := state.(challenges := map c | c in state.challenges &&
                        !(state.challenges[c].user == user && state.challenges[c].session.None?) :: state.challenges[c]);
      Issue(user, None, purpose, remember, now);
    }

    /** Inserts the challenge, then stores its pending secret if it has one. */
    method Issue(user: M.User, session: Option<M.SessionId>, purpose: M.Purpose, remember: bool, now: M.Time)
      modifies this
      ensures state == M.Issue(old(state), user, session, purpose, remember, now)
    {
      var id := state.nextChallenge;
      var c := M.Challenge(user, session, purpose, remember, now + M.CHALLENGE_LIFETIME, 0, false, None);
      state := state.(challenges := state.challenges[id := c], nextChallenge := id + 1);
      if purpose == M.Enroll || purpose == M.Rotate {
        var secret := state.nextSecret;
        state := state.(challenges := state.challenges[id := c.(secret := Some(secret))], nextSecret := secret + 1,
                        holders := state.holders[secret := M.InChallenge(id)]);
        assert state.challenges == old(state.challenges)[id := c.(secret := Some(secret))];
      }
    }

    method BeginAuthenticated(user: M.User, id: M.SessionId, purpose: M.Purpose, now: M.Time)
      modifies this
      ensures state == M.BeginAuthenticated(rules, old(state), user, id, purpose, now)
    {
      if purpose != M.StepUp && purpose != M.RotateAuthorize && purpose != M.Regenerate { return; }
      if user !in state.active { return; }
      if !M.ValidSession(rules, state, user, id, now) { return; }
      if purpose != M.StepUp && state.sessions[id].impersonating { return; }
      if M.HasPending(state, id, now) { return; }
      Issue(user, Some(id), purpose, false, now);
    }

    method ReplaceRecovery(user: M.User)
      modifies this
      ensures state == M.ReplaceRecovery(old(state), user)
    {
      var left := M.OthersCodes(state, user);
      state := state.(recovery := left);
      for n := 0 to M.RECOVERY_CODES
        invariant state == old(state).(recovery := M.WithCodes(left, user, old(state).nextCode, n),
                                       nextCode := old(state).nextCode + n)
      {
        state := state.(recovery := state.recovery[state.nextCode := M.Recovery(user, false)], nextCode := state.nextCode + 1);
      }
    }

    method ClearChallengesSessions(user: M.User)
      modifies this
      ensures state == M.ClearUser(old(state), user)
    {
      state := state.(challenges := map c | c in state.challenges && state.challenges[c].user != user :: state.challenges[c]);
      var sessions := map i | i in state.sessions && state.sessions[i].user != user :: state.sessions[i];
      state := M.Keep(state, sessions, state.challenges);
    }

    /** The counters are tried in a fixed order; only the first that matches is checked for replay. */
    method Match(secret: M.Secret, input: string, now: M.Time, last: int) returns (counter: Option<int>)
      ensures counter == M.Match(rules.code, secret, input, now, last)
    {
      if |input| != 6 { return None; }
      for k := 0 to |input|
        invariant forall j | 0 <= j < k :: '0' <= input[j] <= '9'
      {
        if input[k] < '0' || input[k] > '9' { return None; }
      }
      var current := now / M.PERIOD;
      var tried := [current, current - 1, current + 1];
      for k := 0 to 3
        invariant forall j | 0 <= j < k :: rules.code(secret, tried[j]) != input
      {
        if rules.code(secret, tried[k]) == input {
          assert k > 0 ==> rules.code(secret, tried[0]) != input;
          assert k > 1 ==> rules.code(secret, tried[1]) != input;
          return if tried[k] > last then Some(tried[k]) else None;
        }
      }
      assert forall j | 0 <= j < 3 :: rules.code(secret, tried[j]) != input;
      assert tried[0] == current && tried[1] == current - 1 && tried[2] == current + 1;
      return None;
    }

    method CheckFactor(c: M.Challenge, input: string, now: M.Time) returns (factor: M.Factor)
      ensures factor == M.FactorOf(rules, state, c, input, now)
    {
      if c.purpose == M.Enroll || c.purpose == M.Rotate {
        if c.secret.None? { return M.Unenrolled; }
        var counter := Match(c.secret.value, input, now, -1);
        return if counter.Some? then M.ByCode(c.secret.value, counter.value) else M.Wrong;
      }
      if c.user !in state.enrollments { return M.Unenrolled; }
      var active := state.enrollments[c.user];
      var counter := Match(active.secret, input, now, active.last);
      if counter.Some? { return M.ByCode(active.secret, counter.value); }
      var code := rules.recovery(c.user, input);
      if code.None? || code.value !in state.recovery || state.recovery[code.value].user != c.user { return M.Wrong; }
      return if state.recovery[code.value].used then M.Wrong else M.ByRecovery(code.value);
    }

    method RecordFailure(id: M.ChallengeId)
      requires id in state.challenges
      modifies this
      ensures state == M.RecordFailure(old(state), id)
    {
      var c := state.challenges[id];
      var failures := c.failures + 1;
      if failures < M.MAX_FAILURES {
        state := state.(challenges := state.challenges[id := c.(failures := failures)]);
        return;
      }
      state := M.Consume(state, id, failures, false);
      if c.session.Some? { state := M.Keep(state, state.sessions - {c.session.value}, state.challenges); }
    }

    method Verify(id: M.ChallengeId, input: string, session: Option<M.SessionId>, passwordOk: bool, now: M.Time)
      modifies this
      ensures state == M.Verify(rules, old(state), id, input, session, passwordOk, now)
    {
      if !M.MayVerify(rules, state, id, session, now) { return; }
      var c := state.challenges[id];
      var factor := CheckFactor(c, input, now);
      if factor == M.Unenrolled { return; }
      var valid := factor != M.Wrong;
      if c.purpose == M.RotateAuthorize || c.purpose == M.Regenerate { valid := valid && passwordOk; }
      if !valid {
        RecordFailure(id);
        return;
      }
      if c.purpose == M.Enroll && c.user in state.enrollments { return; }
      state := M.Consume(state, id, c.failures, true);
      UseFactor(c, factor);
      Complete(id, c, now);
    }

    method UseFactor(c: M.Challenge, factor: M.Factor)
      modifies this
      ensures state == M.UseFactor(old(state), c, factor)
    {
      match factor
      case ByCode(secret, counter) =>
        if c.purpose == M.Enroll || c.purpose == M.Rotate {
          state := M.Install(state, c.user, secret, counter, c.purpose == M.Enroll);
          ReplaceRecovery(c.user);
        } else {
          state := M.Accept(state, c.user, secret, counter);
        }
      case ByRecovery(code) =>
        if code in state.recovery { state := M.Spend(state, code); }
      case _ =>
    }

    method Complete(id: M.ChallengeId, c: M.Challenge, now: M.Time)
      modifies this
      ensures state == M.Complete(rules, old(state), id, c, now)
    {
      match c.purpose
      case LogIn => OpenSession(id, c, now);
      case Enroll => OpenSession(id, c, now);
      case StepUp =>
        if c.session.Some? && c.session.value in state.sessions {
          var session := state.sessions[c.session.value];
          state := state.(sessions := state.sessions[c.session.value := session.(verified := now)]);
        }
      case RotateAuthorize => Issue(c.user, c.session, M.Rotate, false, now);
      case Regenerate =>
        ReplaceRecovery(c.user);
        ClearChallengesSessions(c.user);
      case Rotate => ClearChallengesSessions(c.user);
    }

    method OpenSession(id: M.ChallengeId, c: M.Challenge, now: M.Time)
      modifies this
      ensures state == M.OpenSession(old(state), c.user, id, M.Lifetime(rules, c), now)
    {
      var lifetime := rules.lifetime;
      if c.remember { lifetime := rules.remembered; }
      var session := state.nextSession;
      state := state.(sessions := state.sessions[session := M.Session(c.user, now + lifetime, now, now, false)]);
      state := state.(openers := state.openers[session := id], nextSession := session + 1);
    }

    method Reset(target: M.User)
      modifies this
      ensures state == M.Reset(old(state), target)
    {
      state := state.(enrollments := state.enrollments - {target});
      state := state.(recovery := M.OthersCodes(state, target));
      ClearChallengesSessions(target);
    }
  }
}
