/** What holds of the MFA store over whole runs. */
module MfaRuns {
  import opened Options
  import opened Mfa
  import opened MfaSteps

  lemma {:induction false} RunKeeps(rules: Rules, active: set<User>, events: seq<(Event, Time)>)
    ensures Inv(Run(rules, active, events))
  {
    hide Inv, Step;
    if events == [] {
      InitialOk(active);
    } else {
      var last := events[|events| - 1];
      RunKeeps(rules, active, events[..|events| - 1]);
      StepKeeps(rules, Run(rules, active, events[..|events| - 1]), last.0, last.1);
    }
  }

  lemma InitialOk(active: set<User>)
    ensures Inv(Initial(active))
  {
  }

  /** A challenge is consumed at most once, after at most five failures, and a session has one live challenge at most. */
  lemma ChallengesAreSpentOnce(rules: Rules, active: set<User>, events: seq<(Event, Time)>, s: State)
    requires s == Run(rules, active, events)
    ensures forall i, j | 0 <= i < j < |s.consumptions| :: s.consumptions[i].challenge != s.consumptions[j].challenge
    ensures forall c <- s.challenges :: s.challenges[c].failures <= MAX_FAILURES
    ensures forall c <- s.challenges :: s.challenges[c].consumed <==> WasConsumed(s, c)
    ensures forall c, d | c in s.challenges && d in s.challenges && s.challenges[c].session.Some?
              && s.challenges[c].session == s.challenges[d].session
              && IsLive(s.challenges[c], s.clock) && IsLive(s.challenges[d], s.clock) :: c == d
  {
    RunKeeps(rules, active, events);
    forall c <- s.challenges
      ensures s.challenges[c].failures <= MAX_FAILURES && (s.challenges[c].consumed <==> WasConsumed(s, c))
    {
      assert ChallengeOk(s, c);
    }
    forall c, d | c in s.challenges && d in s.challenges && s.challenges[c].session.Some?
                  && s.challenges[c].session == s.challenges[d].session
                  && IsLive(s.challenges[c], s.clock) && IsLive(s.challenges[d], s.clock)
      ensures c == d
    {
      assert OneLive(s, c, d);
    }
  }

  /** No one-time code is accepted twice: the counters accepted for a secret strictly grow. */
  lemma CountersGrow(rules: Rules, active: set<User>, events: seq<(Event, Time)>, s: State, i: nat, j: nat)
    requires s == Run(rules, active, events) && i < j < |s.accepted| && s.accepted[i].secret == s.accepted[j].secret
    ensures s.accepted[i].counter < s.accepted[j].counter
  {
    RunKeeps(rules, active, events);
  }

  /** Each recovery code works once. */
  lemma RecoveryCodesWorkOnce(rules: Rules, active: set<User>, events: seq<(Event, Time)>, s: State, i: nat, j: nat)
    requires s == Run(rules, active, events) && i < j < |s.spent|
    ensures s.spent[i] != s.spent[j]
  {
    RunKeeps(rules, active, events);
  }

  /** Every session comes from a verified login or enrollment challenge of its own, and belongs to that challenge's user. */
  lemma SessionsComeFromChallenges(rules: Rules, active: set<User>, events: seq<(Event, Time)>, s: State, i: SessionId,
                                   j: SessionId)
    requires s == Run(rules, active, events) && i in s.sessions && j in s.sessions
    ensures i in s.openers && j in s.openers && (s.openers[i] == s.openers[j] ==> i == j)
    ensures exists k | 0 <= k < |s.consumptions| ::
              && s.consumptions[k].challenge == s.openers[i]
              && s.consumptions[k].verified && s.consumptions[k].purpose in {LogIn, Enroll}
              && s.consumptions[k].user == s.sessions[i].user
    ensures s.openers[i] in s.challenges ==> s.challenges[s.openers[i]].user == s.sessions[i].user
  {
    RunKeeps(rules, active, events);
    assert OpenerOk(s, i);
    var k :| 0 <= k < |s.consumptions| && Opened(s, i, s.consumptions[k]);
    assert s.consumptions[k].challenge == s.openers[i];
  }

  /** While a session's challenge is pending, asking again, for whatever purpose, issues no other. */
  lemma PendingIsKept(rules: Rules, s: State, user: User, id: SessionId, purpose: Purpose, again: Purpose, now: Time,
                      later: Time)
    requires now <= later < now + CHALLENGE_LIFETIME
    requires BeginAuthenticated(rules, s, user, id, purpose, now) != s
    ensures var s' := BeginAuthenticated(rules, s, user, id, purpose, now);
            && s.nextChallenge in s'.challenges && s'.challenges[s.nextChallenge].session == Some(id)
            && BeginAuthenticated(rules, s', user, id, again, later) == s'
  {
    hide ValidSession;
    var s' := BeginAuthenticated(rules, s, user, id, purpose, now);
    assert s' == Issue(s, user, Some(id), purpose, false, now);
    assert s'.challenges[s.nextChallenge].session == Some(id) && IsLive(s'.challenges[s.nextChallenge], later);
  }

  /**
   After a reset no challenge of the user can be answered any more and none of their sessions is left, the next login has
   to enroll anew, and other users keep everything.
  */
  lemma ResetShutsOut(rules: Rules, active: set<User>, events: seq<(Event, Time)>, s: State, target: User, id: ChallengeId,
                      input: string, presented: Option<SessionId>, ok: bool, remember: bool, now: Time, i: SessionId)
    requires s == Run(rules, active, events)
    ensures var s' := Reset(s, target);
            && (id in s.challenges && s.challenges[id].user == target ==>
                  Verify(rules, s', id, input, presented, ok, now) == s')
            && (i in s'.sessions <==> i in s.sessions && s.sessions[i].user != target)
            && (id in s.challenges && s.challenges[id].user != target ==>
                  id in s'.challenges && s'.challenges[id] == s.challenges[id])
            && (forall u <- s.enrollments | u != target :: u in s'.enrollments && s'.enrollments[u] == s.enrollments[u])
            && (forall u <- s'.enrollments :: u in s.enrollments && u != target)
            && (forall k :: k in s'.recovery <==> k in s.recovery && s.recovery[k].user != target)
            && (forall k <- s'.recovery :: s'.recovery[k] == s.recovery[k])
            && (target in s.active ==>
                  var login := BeginLogin(s', target, true, remember, now);
                  s.nextChallenge in login.challenges && login.challenges[s.nextChallenge].purpose == Enroll)
  {
    hide Run, FactorOf, Complete, RecordFailure, UseFactor;
    RunKeeps(rules, active, events);
    if id in s.challenges { assert ChallengeOk(s, id); }
  }
}
