/** What the login throttle blocks: exactly the users with enough failures in one window, until their lockout ends. */
module LoginThrottle {
  import opened Options
  import opened LoginFailures

  /** How often the user failed from one time to another, both included. */
  function FailuresIn(events: seq<(Event, Time)>, user: User, from: Time, to: Time): nat {
    if events == [] then 0
    else
      var last := events[|events| - 1];
      FailuresIn(events[..|events| - 1], user, from, to)
      + if last.0 == EFail(user) && from <= last.1 <= to then 1 else 0
  }

  /** `max` failures, the last of them at `last`, within one window. */
  ghost predicate Earned(c: Config, events: seq<(Event, Time)>, user: User, last: Time) {
    exists first: Time :: first <= last < first + c.window && FailuresIn(events, user, first, last) >= c.max
  }

  ghost predicate EntryOk(c: Config, events: seq<(Event, Time)>, user: User, e: Entry, now: Time) {
    && e.first <= now
    && match e.lockedUntil
       case None => FailuresIn(events, user, e.first, now) >= e.count
       case Some(until) => until - c.lockout <= now && Earned(c, events, user, until - c.lockout)
  }

  ghost predicate EntriesOk(c: Config, events: seq<(Event, Time)>, f: Failures, now: Time) {
    forall user {:trigger EntryOk(c, events, user, f.entries[user], now)} | user in f.entries ::
      EntryOk(c, events, user, f.entries[user], now)
  }

  /** Failures counted once stay counted. */
  lemma {:induction false} MoreFailures(events: seq<(Event, Time)>, e: (Event, Time), user: User, from: Time, to: Time,
                                        later: Time)
    requires to <= later
    ensures FailuresIn(events + [e], user, from, later)
         == FailuresIn(events, user, from, later) + if e.0 == EFail(user) && from <= e.1 <= later then 1 else 0
    ensures FailuresIn(events, user, from, to) <= FailuresIn(events, user, from, later)
  {
    assert (events + [e])[..|events + [e]| - 1] == events;
    LaterFailures(events, user, from, to, later);
  }

  lemma {:induction false} LaterFailures(events: seq<(Event, Time)>, user: User, from: Time, to: Time, later: Time)
    requires to <= later
    ensures FailuresIn(events, user, from, to) <= FailuresIn(events, user, from, later)
  {
    if events != [] { LaterFailures(events[..|events| - 1], user, from, to, later); }
  }

  lemma EntryStays(c: Config, events: seq<(Event, Time)>, call: (Event, Time), user: User, e: Entry, now: Time)
    requires EntryOk(c, events, user, e, now) && now <= call.1
    ensures EntryOk(c, events + [call], user, e, call.1)
  {
    MoreFailures(events, call, user, e.first, now, call.1);
    if e.lockedUntil.Some? {
      var last := e.lockedUntil.value - c.lockout;
      var first: Time :| first <= last < first + c.window && FailuresIn(events, user, first, last) >= c.max;
      MoreFailures(events, call, user, first, last, last);
    }
  }

  lemma CallKeeps(c: Config, events: seq<(Event, Time)>, f: Failures, call: (Event, Time), cleans: bool, now: Time)
    requires EntriesOk(c, events, f, now) && now <= call.1
    requires forall user <- f.entries :: f.entries[user].lockedUntil.None? ==> f.entries[user].count < c.max
    requires c.window > 0
    ensures var f' := Step(c, f, call.0, call.1, cleans).0;
            && EntriesOk(c, events + [call], f', call.1)
            && (forall user <- f'.entries :: f'.entries[user].lockedUntil.None? ==> f'.entries[user].count < c.max)
  {
    hide EntryOk, FailuresIn;
    var f' := Step(c, f, call.0, call.1, cleans).0;
    forall user | user in f'.entries ensures EntryOk(c, events + [call], user, f'.entries[user], call.1) {
      if user in f.entries {
        assert EntryOk(c, events, user, f.entries[user], now);
        EntryStays(c, events, call, user, f.entries[user], now);
      }
      if call.0 == EFail(user) && (user !in f.entries || f'.entries[user] != f.entries[user]) {
        var was := if user in f.entries then Some(f.entries[user]) else None;
        FailureCounts(c, events, call, user, was, f'.entries[user], now);
      }
    }
  }

  /** A failure that is written is counted in its window, and locks when it is the last one allowed. */
  lemma FailureCounts(c: Config, events: seq<(Event, Time)>, call: (Event, Time), user: User, was: Option<Entry>, e: Entry,
                      now: Time)
    requires call.0 == EFail(user) && now <= call.1 && c.window > 0
    requires was.Some? ==> EntryOk(c, events, user, was.value, now)
    requires var kept := was.Some? && was.value.lockedUntil.None? && call.1 < was.value.first + c.window;
             && e.first == (if kept then was.value.first else call.1)
             && e.count == (if kept then was.value.count else 0) + 1
             && e.lockedUntil == if e.count >= c.max then Some(call.1 + c.lockout) else None
    ensures EntryOk(c, events + [call], user, e, call.1)
  {
    if was.Some? { MoreFailures(events, call, user, was.value.first, now, call.1); }
    MoreFailures(events, call, user, e.first, call.1, call.1);
    if e.count >= c.max { assert FailuresIn(events + [call], user, e.first, call.1) >= c.max; }
  }

  lemma {:induction false} RunEntries(c: Config, start: Time, events: seq<(Event, Time)>, cleans: bool, now: Time)
    requires Ordered(events) && c.window > 0 && forall e <- events :: e.1 <= now
    ensures EntriesOk(c, events, Run(c, start, events, cleans), now)
    ensures forall user <- Run(c, start, events, cleans).entries ::
              var e := Run(c, start, events, cleans).entries[user]; e.lockedUntil.None? ==> e.count < c.max
  {
    hide EntryOk, Step;
    if events != [] {
      var before, last := events[..|events| - 1], events[|events| - 1];
      forall e <- before ensures e.1 <= last.1 {
        var i :| 0 <= i < |before| && before[i] == e;
        assert events[i].1 <= events[|events| - 1].1;
      }
      RunEntries(c, start, before, cleans, last.1);
      CallKeeps(c, before, Run(c, start, before, cleans), last, cleans, last.1);
      assert before + [last] == events;
      var f := Run(c, start, events, cleans);
      forall user | user in f.entries ensures EntryOk(c, events, user, f.entries[user], now) {
        assert EntryOk(c, events, user, f.entries[user], last.1);
        EntryLater(c, events, user, f.entries[user], last.1, now);
      }
    }
  }

  lemma EntryLater(c: Config, events: seq<(Event, Time)>, user: User, e: Entry, now: Time, later: Time)
    requires EntryOk(c, events, user, e, now) && now <= later
    ensures EntryOk(c, events, user, e, later)
  {
    LaterFailures(events, user, e.first, now, later);
  }

  /**
   Whoever is blocked failed as often as is allowed within one window, and the last of these failures is less than a
   lockout ago; cleanup and the other users make no difference to that.
  */
  lemma BlockedIsEarned(c: Config, start: Time, events: seq<(Event, Time)>, user: User, now: Time, cleans: bool)
    requires Ordered(events) && c.window > 0 && forall e <- events :: e.1 <= now
    requires Step(c, Run(c, start, events, cleans), EBlocked(user), now, cleans).1
    ensures exists last: Time :: last <= now < last + c.lockout && Earned(c, events, user, last)
  {
    RunEntries(c, start, events, cleans, now);
    var e := Run(c, start, events, cleans).entries[user];
    assert EntryOk(c, events, user, e, now);
    assert Earned(c, events, user, e.lockedUntil.value - c.lockout);
  }

  // ---------------------------------------------------------------------------------------------------------
  // Enough failures block
  // ---------------------------------------------------------------------------------------------------------

  function FailingAt(user: User, times: seq<Time>): seq<(Event, Time)> {
    seq(|times|, n requires 0 <= n < |times| => (EFail(user), times[n]))
  }

  ghost predicate InOneWindow(c: Config, times: seq<Time>) {
    && (forall i, j | 0 <= i < j < |times| :: times[i] <= times[j])
    && (forall i | 0 <= i < |times| :: times[i] < times[0] + c.window)
  }

  lemma FailsOnce(c: Config, f: Failures, user: User, times: seq<Time>)
    requires times != [] && |times| <= c.max && InOneWindow(c, times) && c.lockout > 0
    requires if |times| == 1 then user !in f.entries && |f.entries| < CAPACITY
             else user in f.entries && f.entries[user] == Entry(|times| - 1, times[0], None)
    ensures var f', now := Step(c, f, EFail(user), times[|times| - 1], true).0, times[|times| - 1];
            && user in f'.entries
            && f'.entries[user] == Entry(|times|, times[0], if |times| == c.max then Some(now + c.lockout) else None)
  {
    var f1 := Cleanup(c, f, times[|times| - 1]);
    Smaller(f1.entries.Keys, f.entries.Keys);
    assert |f.entries| == |f.entries.Keys| && |f1.entries| == |f1.entries.Keys|;
  }

  lemma {:induction false} FailsInARow(c: Config, start: Time, events: seq<(Event, Time)>, user: User, times: seq<Time>)
    requires user !in Failed(events) && |Failed(events)| < CAPACITY
    requires times != [] && |times| <= c.max && InOneWindow(c, times) && c.lockout > 0
    ensures var f, last := Run(c, start, events + FailingAt(user, times), true), times[|times| - 1];
            && user in f.entries
            && f.entries[user] == Entry(|times|, times[0], if |times| == c.max then Some(last + c.lockout) else None)
  {
    hide Run, Step;
    var n := |times| - 1;
    assert events + FailingAt(user, times) == events + FailingAt(user, times[..n]) + [(EFail(user), times[n])];
    RunMore(c, start, events + FailingAt(user, times[..n]), (EFail(user), times[n]), true);
    if n == 0 {
      assert events + FailingAt(user, times[..n]) == events;
      CleanedFailed(c, start, events);
      Smaller(Run(c, start, events, true).entries.Keys, Failed(events));
      assert |Run(c, start, events, true).entries| == |Run(c, start, events, true).entries.Keys|;
    } else {
      FailsInARow(c, start, events, user, times[..n]);
    }
    FailsOnce(c, Run(c, start, events + FailingAt(user, times[..n]), true), user, times);
  }

  lemma {:induction false} CleanedFailed(c: Config, start: Time, events: seq<(Event, Time)>)
    ensures Run(c, start, events, true).entries.Keys <= Failed(events)
  {
    if events != [] { CleanedFailed(c, start, events[..|events| - 1]); }
  }

  /**
   A user who fails for the first time, with room in the table, is blocked from their last allowed failure in the window
   until the lockout ends, and neither before nor after.
  */
  lemma FailuresBlock(c: Config, start: Time, events: seq<(Event, Time)>, user: User, times: seq<Time>, now: Time)
    requires user !in Failed(events) && |Failed(events)| < 10_000
    requires times != [] && |times| <= c.max && InOneWindow(c, times) && c.lockout > 0 && times[|times| - 1] <= now
    ensures Step(c, Run(c, start, events + FailingAt(user, times), true), EBlocked(user), now, true).1
       <==> |times| == c.max && now < times[|times| - 1] + c.lockout
  {
    hide Run;
    FailsInARow(c, start, events, user, times);
  }

  /** A successful login forgets the user's failures, and nobody else's. */
  lemma SuccessForgives(c: Config, f: Failures, user: User, other: User, now: Time, cleans: bool)
    ensures var f' := Step(c, f, EClear(user), now, cleans).0;
            && user !in f'.entries && !Step(c, f', EBlocked(user), now, cleans).1
            && (other != user ==> (other in f'.entries <==> other in f.entries))
            && (other != user && other in f.entries ==> f'.entries[other] == f.entries[other])
  {
  }
}
