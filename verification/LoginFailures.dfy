/** Login throttling (internal/browserauth/security.go), and exactly when a caller can tell that it cleans up. */
module LoginFailures {
  import opened Options

  const CAPACITY: nat := 10_000
  const MINUTE: nat := 60

  type Time = int
  type User = string

  /** The lock, once set, decides; before that the window counts from the first failure. */
  datatype Entry = Entry(count: nat, first: Time, lockedUntil: Option<Time>)
  datatype Config = Config(window: nat, lockout: nat, max: nat)
  datatype Failures = Failures(entries: map<User, Entry>, lastCleanup: Time)

  predicate Expired(c: Config, e: Entry, now: Time) {
    if e.lockedUntil.Some? then e.lockedUntil.value <= now else e.first + c.window <= now
  }

  function Min(a: nat, b: nat): nat { if a < b then a else b }

  function Cleanup(c: Config, f: Failures, now: Time): Failures {
    if now - f.lastCleanup < Min(MINUTE, Min(c.window, c.lockout)) then f
    else Failures(map u | u in f.entries && !Expired(c, f.entries[u], now) :: f.entries[u], now)
  }

  function Locked(f: Failures, user: User, now: Time): bool {
    user in f.entries && f.entries[user].lockedUntil.Some? && f.entries[user].lockedUntil.value > now
  }

  /** The operations after their cleanup. */
  function Blocked(f: Failures, user: User, now: Time): (Failures, bool) {
    if user in f.entries && f.entries[user].lockedUntil.Some? && f.entries[user].lockedUntil.value <= now then
      (f.(entries := f.entries - {user}), false)
    else (f, Locked(f, user, now))
  }

  function Fail(c: Config, f: Failures, user: User, now: Time): Failures {
    if Locked(f, user, now) then f
    else if user !in f.entries && |f.entries| >= CAPACITY then f
    else
      var fresh_ := user !in f.entries || f.entries[user].first + c.window <= now || f.entries[user].lockedUntil.Some?;
      var e := if fresh_ then Entry(0, now, None) else f.entries[user];
      var count := e.count + 1;
      f.(entries := f.entries[user := Entry(count, e.first, if count >= c.max then Some(now + c.lockout) else e.lockedUntil)])
  }

  datatype Event = EBlocked(user: User) | EFail(user: User) | EClear(user: User)

  /** One call; `cleans` says whether it cleans up first, as the program does. The answer is that of EBlocked. */
  function Step(c: Config, f: Failures, e: Event, now: Time, cleans: bool): (Failures, bool) {
    match e
    case EBlocked(user) => Blocked(if cleans then Cleanup(c, f, now) else f, user, now)
    case EFail(user) => (Fail(c, if cleans then Cleanup(c, f, now) else f, user, now), false)
    case EClear(user) => (f.(entries := f.entries - {user}), false)
  }

  function Run(c: Config, start: Time, events: seq<(Event, Time)>, cleans: bool): Failures {
    if events == [] then Failures(map[], start)
    else
      var last := events[|events| - 1];
      Step(c, Run(c, start, events[..|events| - 1], cleans), last.0, last.1, cleans).0
  }

  /** The answers given to all calls. */
  function Answers(c: Config, start: Time, events: seq<(Event, Time)>, cleans: bool): seq<bool> {
    if events == [] then []
    else
      var before, last := events[..|events| - 1], events[|events| - 1];
      Answers(c, start, before, cleans) + [Step(c, Run(c, start, before, cleans), last.0, last.1, cleans).1]
  }

  ghost predicate Ordered(events: seq<(Event, Time)>) {
    forall i, j | 0 <= i < j < |events| :: events[i].1 <= events[j].1
  }

  /** A new user fails while the table would be full without cleanup, but with cleanup has room. */
  predicate Shows(c: Config, cleaned: Failures, plain: Failures, e: Event, now: Time) {
    && e.EFail? && e.user !in plain.entries
    && |plain.entries| == CAPACITY && |Cleanup(c, cleaned, now).entries| < CAPACITY
  }

  ghost predicate NeverShows(c: Config, start: Time, events: seq<(Event, Time)>) {
    forall n: nat | n < |events| ::
      !Shows(c, Run(c, start, events[..n], true), Run(c, start, events[..n], false), events[n].0, events[n].1)
  }

  /** The same entries, except that some of `plain`, all expired, are missing. */
  ghost predicate Alike(c: Config, cleaned: Failures, plain: Failures, now: Time) {
    && (forall u <- cleaned.entries :: u in plain.entries && plain.entries[u] == cleaned.entries[u])
    && (forall u <- plain.entries :: u in cleaned.entries || Expired(c, plain.entries[u], now))
  }

  lemma {:induction false} Smaller(a: set<User>, b: set<User>)
    requires a <= b
    ensures |a| <= |b|
  {
    if a != {} {
      var x :| x in a;
      Smaller(a - {x}, b - {x});
    }
  }

  lemma CleanupIsAlike(c: Config, cleaned: Failures, plain: Failures, now: Time)
    requires Alike(c, cleaned, plain, now)
    ensures Alike(c, Cleanup(c, cleaned, now), plain, now)
    ensures |Cleanup(c, cleaned, now).entries| <= |plain.entries|
    ensures |Cleanup(c, cleaned, now).entries| == |plain.entries| ==> Cleanup(c, cleaned, now).entries == plain.entries
  {
    var f := Cleanup(c, cleaned, now);
    Smaller(f.entries.Keys, plain.entries.Keys);
    assert |f.entries| == |f.entries.Keys| && |plain.entries| == |plain.entries.Keys|;
    if |f.entries| == |plain.entries| {
      forall u <- plain.entries ensures u in f.entries {
        if u !in f.entries { Smaller(f.entries.Keys, plain.entries.Keys - {u}); }
      }
    }
  }

  /** One call is answered alike, and leaves the tables alike unless it shows the cleanup. */
  lemma CallsStayAlike(c: Config, cleaned: Failures, plain: Failures, e: Event, now: Time)
    requires Alike(c, cleaned, plain, now) && |plain.entries| <= CAPACITY
    ensures Step(c, cleaned, e, now, true).1 == Step(c, plain, e, now, false).1
    ensures Alike(c, Step(c, cleaned, e, now, true).0, Step(c, plain, e, now, false).0, now)
       <==> !Shows(c, cleaned, plain, e, now)
    ensures |Step(c, plain, e, now, false).0.entries| <= CAPACITY
  {
    hide Alike, Cleanup, Blocked, Fail;
    CleanupIsAlike(c, cleaned, plain, now);
    match e
    case EClear(user) => ClearAlike(c, cleaned, plain, user, now);
    case EBlocked(user) => BlockedAlike(c, Cleanup(c, cleaned, now), plain, user, now);
    case EFail(user) =>
      FailCounts(c, plain, user, now);
      FailAlike(c, Cleanup(c, cleaned, now), plain, user, now);
  }

  lemma ClearAlike(c: Config, cleaned: Failures, plain: Failures, user: User, now: Time)
    requires Alike(c, cleaned, plain, now)
    ensures var f, g := cleaned.(entries := cleaned.entries - {user}), plain.(entries := plain.entries - {user});
            Alike(c, f, g, now) && |g.entries| <= |plain.entries|
  {
    hide Expired;
    FewerEntries(plain.(entries := plain.entries - {user}), plain);
  }

  lemma FewerEntries(f: Failures, g: Failures)
    requires f.entries.Keys <= g.entries.Keys
    ensures |f.entries| <= |g.entries|
  {
    Smaller(f.entries.Keys, g.entries.Keys);
    assert |f.entries| == |f.entries.Keys| && |g.entries| == |g.entries.Keys|;
  }

  lemma BlockedAlike(c: Config, f: Failures, plain: Failures, user: User, now: Time)
    requires Alike(c, f, plain, now)
    ensures Blocked(f, user, now).1 == Blocked(plain, user, now).1
    ensures Alike(c, Blocked(f, user, now).0, Blocked(plain, user, now).0, now)
    ensures |Blocked(plain, user, now).0.entries| <= |plain.entries|
  {
    FewerEntries(Blocked(plain, user, now).0, plain);
  }

  lemma FailCounts(c: Config, f: Failures, user: User, now: Time)
    requires |f.entries| <= CAPACITY
    ensures |Fail(c, f, user, now).entries| <= CAPACITY
  {
    var f' := Fail(c, f, user, now);
    assert |f.entries| == |f.entries.Keys| && |f'.entries| == |f'.entries.Keys|;
    assert f'.entries.Keys == f.entries.Keys || f'.entries.Keys == f.entries.Keys + {user};
  }

  lemma FailAlike(c: Config, f: Failures, plain: Failures, user: User, now: Time)
    requires Alike(c, f, plain, now) && |f.entries| <= |plain.entries| <= CAPACITY
    requires |f.entries| == |plain.entries| ==> f.entries == plain.entries
    ensures Alike(c, Fail(c, f, user, now), Fail(c, plain, user, now), now)
       <==> !(user !in plain.entries && |plain.entries| == CAPACITY && |f.entries| < CAPACITY)
  {
    if user !in plain.entries && |plain.entries| == CAPACITY && |f.entries| < CAPACITY {
      assert user in Fail(c, f, user, now).entries && user !in Fail(c, plain, user, now).entries;
    }
  }

  lemma Later(c: Config, cleaned: Failures, plain: Failures, now: Time, later: Time)
    requires Alike(c, cleaned, plain, now) && now <= later
    ensures Alike(c, cleaned, plain, later)
  {
  }

  lemma RunMore(c: Config, start: Time, events: seq<(Event, Time)>, e: (Event, Time), cleans: bool)
    ensures Run(c, start, events + [e], cleans) == Step(c, Run(c, start, events, cleans), e.0, e.1, cleans).0
    ensures Answers(c, start, events + [e], cleans)
         == Answers(c, start, events, cleans) + [Step(c, Run(c, start, events, cleans), e.0, e.1, cleans).1]
  {
    hide Step;
    assert (events + [e])[..|events + [e]| - 1] == events;
  }

  /** As long as no call shows the cleanup, every call is answered as if nothing were ever cleaned up. */
  lemma {:induction false} CleanupIsUnobservable(c: Config, start: Time, events: seq<(Event, Time)>, now: Time)
    requires Ordered(events) && NeverShows(c, start, events) && (forall e <- events :: e.1 <= now)
    ensures Answers(c, start, events, true) == Answers(c, start, events, false)
    ensures Alike(c, Run(c, start, events, true), Run(c, start, events, false), now)
    ensures |Run(c, start, events, false).entries| <= CAPACITY
  {
    hide Step, Alike, Shows;
    if events == [] {
      StartsAlike(c, start, now);
    } else {
      var before, last := events[..|events| - 1], events[|events| - 1];
      forall n: nat | n < |before|
        ensures !Shows(c, Run(c, start, before[..n], true), Run(c, start, before[..n], false), before[n].0, before[n].1)
      {
        assert before[..n] == events[..n];
      }
      forall e <- before ensures e.1 <= last.1 {
        var i :| 0 <= i < |before| && before[i] == e;
        assert events[i].1 <= events[|events| - 1].1;
      }
      CleanupIsUnobservable(c, start, before, last.1);
      CallsStayAlike(c, Run(c, start, before, true), Run(c, start, before, false), last.0, last.1);
      Later(c, Run(c, start, events, true), Run(c, start, events, false), last.1, now);
    }
  }

  // ---------------------------------------------------------------------------------------------------------
  // At the cap
  // ---------------------------------------------------------------------------------------------------------

  /** A user's failures at one time. */
  function Failing(user: User, now: Time, n: nat): seq<(Event, Time)> {
    if n == 0 then [] else Failing(user, now, n - 1) + [(EFail(user), now)]
  }

  /** The entry of a user who failed n times at one time. */
  function FailedEntry(c: Config, now: Time, n: nat): Entry {
    Entry(n, now, if n >= c.max then Some(now + c.lockout) else None)
  }

  lemma FailsAgain(c: Config, f: Failures, user: User, now: Time, n: nat)
    requires c.window > 0 && c.lockout > 0 && n < c.max
    requires if n == 0 then user !in f.entries && |Cleanup(c, f, now).entries| < CAPACITY
             else user in f.entries && f.entries[user] == FailedEntry(c, now, n)
    ensures var f' := Step(c, f, EFail(user), now, true).0;
            user in f'.entries && f'.entries[user] == FailedEntry(c, now, n + 1)
  {
  }

  lemma NoRoom(c: Config, f: Failures, user: User, now: Time)
    requires user !in f.entries && |f.entries| >= CAPACITY
    ensures Step(c, f, EFail(user), now, false).0 == f
  {
  }

  /** Without room the failures of a new user leave no trace; with room they add up. */
  lemma {:induction false} FailuresAddUp(c: Config, start: Time, events: seq<(Event, Time)>, user: User, now: Time, n: nat)
    requires c.window > 0 && c.lockout > 0 && n <= c.max
    requires Shows(c, Run(c, start, events, true), Run(c, start, events, false), EFail(user), now)
    requires user !in Run(c, start, events, true).entries
    ensures Run(c, start, events + Failing(user, now, n), false) == Run(c, start, events, false)
    ensures var f := Run(c, start, events + Failing(user, now, n), true);
            if n == 0 then f == Run(c, start, events, true)
            else user in f.entries && f.entries[user] == FailedEntry(c, now, n)
    ensures |Answers(c, start, events + Failing(user, now, n), true)| == |events| + n
    ensures |Answers(c, start, events + Failing(user, now, n), false)| == |events| + n
  {
    AnswersAll(c, start, events + Failing(user, now, n), true);
    AnswersAll(c, start, events + Failing(user, now, n), false);
    FailingLength(user, now, n);
    hide Cleanup, Run, Answers, Step, FailedEntry;
    if n == 0 {
      assert events + [] == events;
    } else {
      var before := events + Failing(user, now, n - 1);
      NoRoom(c, Run(c, start, events, false), user, now);
      FailuresAddUp(c, start, events, user, now, n - 1);
      assert events + Failing(user, now, n) == before + [(EFail(user), now)];
      RunMore(c, start, before, (EFail(user), now), true);
      RunMore(c, start, before, (EFail(user), now), false);
      FailsAgain(c, Run(c, start, before, true), user, now, n - 1);
    }
  }

  lemma {:induction false} FailingLength(user: User, now: Time, n: nat)
    ensures |Failing(user, now, n)| == n
  {
    if n > 0 { FailingLength(user, now, n - 1); }
  }

  lemma {:induction false} AnswersAll(c: Config, start: Time, events: seq<(Event, Time)>, cleans: bool)
    ensures |Answers(c, start, events, cleans)| == |events|
  {
    if events != [] { AnswersAll(c, start, events[..|events| - 1], cleans); }
  }

  /** A call that does not show the cleanup shows it no more when repeated at once. */
  lemma ShowsNoMore(c: Config, cleaned: Failures, plain: Failures, user: User, now: Time)
    requires Alike(c, cleaned, plain, now) && |plain.entries| <= CAPACITY
    requires !Shows(c, cleaned, plain, EFail(user), now)
    ensures !Shows(c, Step(c, cleaned, EFail(user), now, true).0, Step(c, plain, EFail(user), now, false).0, EFail(user), now)
  {
    CleanupIsAlike(c, cleaned, plain, now);
    var f := Cleanup(c, cleaned, now);
    if user !in plain.entries {
      if |plain.entries| == CAPACITY {
        assert f.entries == plain.entries && Fail(c, f, user, now) == f;
        CleansOnce(c, cleaned, now);
      } else {
        assert user in Fail(c, plain, user, now).entries;
      }
    }
  }

  lemma CleansOnce(c: Config, f: Failures, now: Time)
    ensures Cleanup(c, Cleanup(c, f, now), now) == Cleanup(c, f, now)
  {
    var g := Cleanup(c, f, now);
    if now - f.lastCleanup >= Min(MINUTE, Min(c.window, c.lockout)) { assert Cleanup(c, g, now).entries == g.entries; }
  }

  lemma {:induction false} FailuresStayAlike(c: Config, start: Time, events: seq<(Event, Time)>, user: User, now: Time,
                                             n: nat)
    requires Alike(c, Run(c, start, events, true), Run(c, start, events, false), now)
    requires |Run(c, start, events, false).entries| <= CAPACITY
    requires Answers(c, start, events, true) == Answers(c, start, events, false)
    requires !Shows(c, Run(c, start, events, true), Run(c, start, events, false), EFail(user), now)
    ensures var more := events + Failing(user, now, n);
            && Alike(c, Run(c, start, more, true), Run(c, start, more, false), now)
            && |Run(c, start, more, false).entries| <= CAPACITY
            && Answers(c, start, more, true) == Answers(c, start, more, false)
            && !Shows(c, Run(c, start, more, true), Run(c, start, more, false), EFail(user), now)
  {
    hide Step, Alike, Shows, Run, Answers;
    if n == 0 {
      assert events + [] == events;
    } else {
      var before := events + Failing(user, now, n - 1);
      FailuresStayAlike(c, start, events, user, now, n - 1);
      assert events + Failing(user, now, n) == before + [(EFail(user), now)];
      RunMore(c, start, before, (EFail(user), now), true);
      RunMore(c, start, before, (EFail(user), now), false);
      CallsStayAlike(c, Run(c, start, before, true), Run(c, start, before, false), EFail(user), now);
      ShowsNoMore(c, Run(c, start, before, true), Run(c, start, before, false), user, now);
    }
  }

  /**
   After calls that did not show the cleanup, a user who now fails as often as is allowed and then asks can tell that the
   table is cleaned up if and only if the user is new to a table that would be full without cleanup and is not with it.
  */
  lemma FullTableShowsCleanup(c: Config, start: Time, events: seq<(Event, Time)>, user: User, now: Time)
    requires c.max >= 1 && c.window > 0 && c.lockout > 0
    requires Ordered(events) && NeverShows(c, start, events) && (forall e <- events :: e.1 <= now)
    ensures var calls := events + Failing(user, now, c.max) + [(EBlocked(user), now)];
            && (Answers(c, start, calls, true) != Answers(c, start, calls, false)
                <==> Shows(c, Run(c, start, events, true), Run(c, start, events, false), EFail(user), now))
  {
    hide Run, Answers, NeverShows, Cleanup, Alike;
    CleanupIsUnobservable(c, start, events, now);
    var before := events + Failing(user, now, c.max);
    RunMore(c, start, before, (EBlocked(user), now), true);
    RunMore(c, start, before, (EBlocked(user), now), false);
    if Shows(c, Run(c, start, events, true), Run(c, start, events, false), EFail(user), now) {
      NotInCleaned(c, Run(c, start, events, true), Run(c, start, events, false), user, now);
      FailuresAddUp(c, start, events, user, now, c.max);
      BlockedAtLast(c, Run(c, start, before, true), user, now);
      var yes, no := Answers(c, start, before, true) + [true], Answers(c, start, before, false) + [false];
      assert yes[|events| + c.max] != no[|events| + c.max];
    } else {
      FailuresStayAlike(c, start, events, user, now, c.max);
      CallsStayAlike(c, Run(c, start, before, true), Run(c, start, before, false), EBlocked(user), now);
    }
  }

  lemma NotInCleaned(c: Config, cleaned: Failures, plain: Failures, user: User, now: Time)
    requires Alike(c, cleaned, plain, now) && user !in plain.entries
    ensures user !in cleaned.entries
  {
  }

  /** A locked entry survives the cleanup at its own time. */
  lemma BlockedAtLast(c: Config, f: Failures, user: User, now: Time)
    requires c.max >= 1 && c.lockout > 0
    requires user in f.entries && f.entries[user] == FailedEntry(c, now, c.max)
    ensures Step(c, f, EBlocked(user), now, true).1
  {
  }

  /** The users who failed. */
  function Failed(events: seq<(Event, Time)>): set<User> {
    if events == [] then {}
    else
      var last := events[|events| - 1].0;
      Failed(events[..|events| - 1]) + (if last.EFail? then {last.user} else {})
  }

  lemma {:induction false} OnlyFailedUsers(c: Config, start: Time, events: seq<(Event, Time)>)
    ensures Run(c, start, events, false).entries.Keys <= Failed(events)
  {
    if events != [] { OnlyFailedUsers(c, start, events[..|events| - 1]); }
  }

  /** While no more users failed than the table holds, no call shows the cleanup. */
  lemma {:induction false} FewUsersNeverShow(c: Config, start: Time, events: seq<(Event, Time)>)
    requires |Failed(events)| <= CAPACITY
    ensures NeverShows(c, start, events)
  {
    hide Run, Cleanup, NeverShows;
    if events == [] {
      NoCallShows(c, start);
    } else {
      var before, last := events[..|events| - 1], events[|events| - 1];
      Smaller(Failed(before), Failed(events));
      FewUsersNeverShow(c, start, before);
      OnlyFailedUsers(c, start, before);
      var plain := Run(c, start, before, false);
      assert |plain.entries| == |plain.entries.Keys|;
      if last.0.EFail? && last.0.user !in plain.entries {
        Smaller(plain.entries.Keys + {last.0.user}, Failed(events));
      }
      NeverShowsMore(c, start, before, last);
      assert before + [last] == events;
    }
  }

  lemma NoCallShows(c: Config, start: Time)
    ensures NeverShows(c, start, [])
  {
  }

  /**
   The order of times matters: when a call that read its time before a lock ended arrives after another's cleanup at the
   end of the lock, it is let through, and without cleanup it is not; the table need not be full.
  */
  lemma LateCallShowsCleanup(c: Config, start: Time, user: User, other: User, late: Time)
    requires c.max == 1 && user != other && start <= late < start + c.lockout
    ensures var calls := [(EFail(user), start), (EBlocked(other), start + c.lockout), (EBlocked(user), late)];
            && NeverShows(c, start, calls) && !Ordered(calls)
            && Answers(c, start, calls, true) == [false, false, false]
            && Answers(c, start, calls, false) == [false, false, true]
  {
    hide NeverShows, Run, Answers;
    var first, second, third := (EFail(user), start), (EBlocked(other), start + c.lockout), (EBlocked(user), late);
    assert [first, second, third] == [first, second] + [third] && [first, second] == [first] + [second];
    assert [first] == [] + [first];
    StartsEmpty(c, start);
    NoCallShows(c, start);
    RunMore(c, start, [], first, true);
    RunMore(c, start, [], first, false);
    RunMore(c, start, [first], second, true);
    RunMore(c, start, [first], second, false);
    RunMore(c, start, [first, second], third, true);
    RunMore(c, start, [first, second], third, false);
    NeverShowsMore(c, start, [], first);
    NeverShowsMore(c, start, [first], second);
    NeverShowsMore(c, start, [first, second], third);
    assert [first, second, third][1].1 > [first, second, third][2].1;
  }

  lemma StartsEmpty(c: Config, start: Time)
    ensures forall cleans :: Run(c, start, [], cleans) == Failures(map[], start) && Answers(c, start, [], cleans) == []
  {
  }

  // ---------------------------------------------------------------------------------------------------------
  // A full table can be reached
  // ---------------------------------------------------------------------------------------------------------

  /** Different users for different numbers. */
  function Nth(n: nat): User { seq(n, _ => 'a') }

  function Filling(start: Time, n: nat): seq<(Event, Time)> {
    if n == 0 then [] else Filling(start, n - 1) + [(EFail(Nth(n - 1)), start)]
  }

  ghost predicate IsFilled(c: Config, f: Failures, start: Time, n: nat) {
    && |f.entries| == n && f.lastCleanup == start
    && (forall user <- f.entries :: |user| < n && f.entries[user] == FailedEntry(c, start, 1))
  }

  lemma FillsOne(c: Config, f: Failures, start: Time, n: nat, cleans: bool)
    requires c.window > 0 && c.lockout > 0 && n < CAPACITY && IsFilled(c, f, start, n)
    ensures IsFilled(c, Step(c, f, EFail(Nth(n)), start, cleans).0, start, n + 1)
  {
    assert Nth(n) !in f.entries;
    assert Cleanup(c, f, start) == f;
  }

  lemma {:induction false} Fills(c: Config, start: Time, n: nat, cleans: bool)
    requires c.window > 0 && c.lockout > 0 && n <= CAPACITY
    ensures IsFilled(c, Run(c, start, Filling(start, n), cleans), start, n)
  {
    if n > 0 {
      hide Run, IsFilled, Step;
      Fills(c, start, n - 1, cleans);
      RunMore(c, start, Filling(start, n - 1), (EFail(Nth(n - 1)), start), cleans);
      FillsOne(c, Run(c, start, Filling(start, n - 1), cleans), start, n - 1, cleans);
    }
  }

  lemma {:induction false} FillingShape(c: Config, start: Time, n: nat)
    requires c.window > 0 && c.lockout > 0 && n <= CAPACITY
    ensures Ordered(Filling(start, n)) && NeverShows(c, start, Filling(start, n))
    ensures forall e <- Filling(start, n) :: e.1 == start
  {
    hide Run, Cleanup;
    if n > 0 {
      var before := Filling(start, n - 1);
      FillingShape(c, start, n - 1);
      Fills(c, start, n - 1, false);
      NeverShowsMore(c, start, before, (EFail(Nth(n - 1)), start));
    }
  }

  lemma NeverShowsMore(c: Config, start: Time, before: seq<(Event, Time)>, e: (Event, Time))
    requires NeverShows(c, start, before)
    requires !Shows(c, Run(c, start, before, true), Run(c, start, before, false), e.0, e.1)
    ensures NeverShows(c, start, before + [e])
  {
    hide Shows, Run;
    var events := before + [e];
    assert before[..|before|] == before;
    forall k: nat | k < |events|
      ensures !Shows(c, Run(c, start, events[..k], true), Run(c, start, events[..k], false), events[k].0, events[k].1)
    {
      assert events[..k] == before[..k];
    }
  }

  /** From the empty table, as many users as the table holds fail, and once they expired the next one shows the cleanup. */
  lemma FullTableIsReached(c: Config, start: Time)
    requires c.max >= 1 && c.window > 0 && c.lockout > 0
    ensures var events, later := Filling(start, CAPACITY), start + c.window + c.lockout + MINUTE;
            && Ordered(events) && NeverShows(c, start, events)
            && Shows(c, Run(c, start, events, true), Run(c, start, events, false), EFail(Nth(CAPACITY)), later)
  {
    hide Run, Filling, NeverShows, Ordered;
    Fills(c, start, CAPACITY, true);
    Fills(c, start, CAPACITY, false);
    FillingShape(c, start, CAPACITY);
    var f, later := Run(c, start, Filling(start, CAPACITY), true), start + c.window + c.lockout + MINUTE;
    assert forall user <- f.entries :: Expired(c, f.entries[user], later);
    assert Cleanup(c, f, later).entries == map[];
  }

  lemma StartsAlike(c: Config, start: Time, now: Time)
    ensures Alike(c, Failures(map[], start), Failures(map[], start), now)
  {
  }

  class Throttle {
    const config: Config
    var entries: map<User, Entry>
    var lastCleanup: Time

    constructor (config: Config, start: Time)
      ensures this.config == config && State() == Failures(map[], start)
    {
      this.config, entries, lastCleanup := config, map[], start;
    }

    function State(): Failures
      reads this
    {
      Failures(entries, lastCleanup)
    }

    method CleanUp(now: Time)
      modifies this
      ensures State() == Cleanup(config, old(State()), now)
    {
      if now - lastCleanup < Min(MINUTE, Min(config.window, config.lockout)) { return; }
      var keys := entries.Keys;
      while keys != {}
        invariant keys <= old(entries).Keys && lastCleanup == old(lastCleanup)
        invariant forall u :: u in entries <==> u in old(entries) && (u in keys || !Expired(config, old(entries)[u], now))
        invariant forall u <- entries :: entries[u] == old(entries)[u]
        decreases |keys|
      {
        var key :| key in keys;
        keys := keys - {key};
        if Expired(config, entries[key], now) { entries := entries - {key}; }
      }
      lastCleanup := now;
    }

    method IsBlocked(user: User, now: Time) returns (blocked: bool)
      modifies this
      ensures (State(), blocked) == Step(config, old(State()), EBlocked(user), now, true)
    {
      CleanUp(now);
      if user !in entries { return false; }
      var entry := entries[user];
      if entry.lockedUntil.Some? && entry.lockedUntil.value <= now { entries := entries - {user}; }
      return entry.lockedUntil.Some? && entry.lockedUntil.value > now;
    }

    method RecordFailure(user: User, now: Time)
      modifies this
      ensures State() == Step(config, old(State()), EFail(user), now, true).0
    {
      CleanUp(now);
      var entry := Entry(0, now, None);
      if user in entries {
        var kept := entries[user];
        if kept.lockedUntil.Some? && kept.lockedUntil.value > now { return; }
        if kept.first + config.window > now && kept.lockedUntil.None? { entry := kept; }
      } else if |entries| >= CAPACITY {
        return;
      }
      entry := entry.(count := entry.count + 1);
      if entry.count >= config.max { entry := entry.(lockedUntil := Some(now + config.lockout)); }
      entries := entries[user := entry];
    }

    method Clear(user: User)
      modifies this
      ensures State() == Step(config, old(State()), EClear(user), 0, true).0
    {
      entries := entries - {user};
    }
  }
}
