/** Single-flight login (internal/fincloud/client.go). */
module Login {
  // Callers share one session, and one login at a time renews it. The mutex makes each locked section one step; between
  // them callers wait, give up, or meet an HTTP 401.

  import opened Options

  type CallerId = nat
  type CallId = nat

  /** No session is held while the id is empty. */
  datatype Session = Session(id: string, generation: nat)

  datatype Call = InFlight | Succeeded | FailedCall

  /** `stale` is the generation the caller was refused with. */
  datatype Caller =
    | Entering(stale: Option<nat>)
    | Waiting(stale: Option<nat>, call: CallId)
    | LoggingIn(stale: Option<nat>, call: CallId)
    | Got(stale: Option<nat>, session: Session)
    | GaveUp

  /** For each login that succeeded, `renewals` lists the stale generation its caller came with, and `ids` its session. */
  datatype State = State(
    session: Session,
    login: Option<CallId>,
    calls: seq<Call>,
    callers: map<CallerId, Caller>,
    renewals: seq<Option<nat>>,
    ids: seq<string>)

  const Initial := State(Session("", 0), None, [], map[], [], [])

  datatype Entered = Session_(session: Session) | WaitFor(call: CallId) | LogIn(call: CallId)

  /** The locked section that decides what a caller does next. */
  function Enter(s: State, stale: Option<nat>): (State, Entered) {
    if s.session.id != "" && (stale.None? || s.session.generation != stale.value) then (s, Session_(s.session))
    else if s.login.Some? then (s, WaitFor(s.login.value))
    else (s.(login := Some(|s.calls|), calls := s.calls + [InFlight]), LogIn(|s.calls|))
  }

  /** The locked section after the login request: a success has a nonblank id and makes a new generation. */
  function Complete(s: State, call: CallId, stale: Option<nat>, id: Option<string>): State
    requires call < |s.calls|
  {
    match id
    case Some(id) =>
      s.(session := Session(id, s.session.generation + 1), login := None, calls := s.calls[call := Succeeded],
         renewals := s.renewals + [stale], ids := s.ids + [id])
    case None => s.(login := None, calls := s.calls[call := FailedCall])
  }

  datatype Event =
    | EBegin(caller: CallerId)
    | EUnauthorized(caller: CallerId)
    | EEnter(caller: CallerId)
    | EWake(caller: CallerId)
    | EGiveUp(caller: CallerId)
    | ELoginDone(caller: CallerId, id: Option<string>)

  function WithCaller(s: State, c: CallerId, x: Caller): State {
    s.(callers := s.callers[c := x])
  }

  function Step(s: State, e: Event): State {
    if e.EBegin? then (if e.caller in s.callers then s else WithCaller(s, e.caller, Entering(None)))
    else if e.caller !in s.callers then s
    else
      var x := s.callers[e.caller];
      match e
      case EUnauthorized(c) =>
        if x.Got? && x.stale.None? then WithCaller(s, c, Entering(Some(x.session.generation))) else s
      case EEnter(c) =>
        if !x.Entering? then s
        else
          var (s', entered) := Enter(s, x.stale);
          WithCaller(s', c, match entered
                            case Session_(session) => Got(x.stale, session)
                            case WaitFor(call) => Waiting(x.stale, call)
                            case LogIn(call) => LoggingIn(x.stale, call))
      case EWake(c) =>
        if !x.Waiting? || x.call >= |s.calls| || s.calls[x.call] == InFlight then s
        else WithCaller(s, c, if s.calls[x.call] == Succeeded then Entering(x.stale) else GaveUp)
      case EGiveUp(c) => if !x.Waiting? then s else WithCaller(s, c, GaveUp)
      case ELoginDone(c, id) =>
        if !x.LoggingIn? || x.call >= |s.calls| || id == Some("") then s
        else
          var s' := Complete(s, x.call, x.stale, id);
          WithCaller(s', c, if id.Some? then Got(x.stale, s'.session) else GaveUp)
  }

  function Run(events: seq<Event>): State {
    if events == [] then Initial else Step(Run(events[..|events| - 1]), events[|events| - 1])
  }

  // ---------------------------------------------------------------------------------------------------------
  // The invariant
  // ---------------------------------------------------------------------------------------------------------

  ghost predicate StaleOk(s: State, stale: Option<nat>) {
    stale.Some? ==> 1 <= stale.value <= s.session.generation
  }

  ghost predicate CallerOk(s: State, c: CallerId)
    requires c in s.callers
  {
    match s.callers[c]
    case Entering(stale) => StaleOk(s, stale)
    case Waiting(stale, call) => StaleOk(s, stale) && call < |s.calls|
    case LoggingIn(stale, call) =>
      && s.login == Some(call)
      && (if stale.Some? then stale.value == s.session.generation else s.session.generation == 0)
      && StaleOk(s, stale)
    case Got(stale, session) =>
      && session.id != ""
      && 1 <= session.generation <= s.session.generation
      && session.generation <= |s.ids| && session.id == s.ids[session.generation - 1]
      && (stale.Some? ==> stale.value < session.generation)
    case GaveUp => true
  }

  ghost predicate OneLogin(s: State) {
    && (forall b, c | b in s.callers && c in s.callers && s.callers[b].LoggingIn? && s.callers[c].LoggingIn? :: b == c)
    && (s.login.Some? ==>
          && s.login.value < |s.calls|
          && (exists c | c in s.callers :: s.callers[c].LoggingIn?))
    && (forall k | 0 <= k < |s.calls| :: s.calls[k] == InFlight <==> s.login == Some(k))
  }

  /** The first success needed no stale generation; each later one replaced the generation before. */
  ghost predicate RenewalsOk(s: State) {
    && |s.renewals| == |s.ids| == s.session.generation
    && (s.session.generation > 0 ==> s.session.id == s.ids[s.session.generation - 1])
    && (forall k | 0 <= k < |s.renewals| :: s.renewals[k] == if k == 0 then None else Some(k))
    && (s.session.id != "" <==> s.session.generation > 0)
  }

  ghost predicate Inv(s: State) {
    && (forall c {:trigger CallerOk(s, c)} | c in s.callers :: CallerOk(s, c))
    && OneLogin(s)
    && RenewalsOk(s)
  }

  lemma CallerKeeps(s: State, c: CallerId, x: Caller)
    requires Inv(s) && (c in s.callers ==> !s.callers[c].LoggingIn?) && !x.LoggingIn?
    requires CallerOk(WithCaller(s, c, x), c)
    ensures Inv(WithCaller(s, c, x))
  {
    var s' := WithCaller(s, c, x);
    forall b | b in s'.callers ensures CallerOk(s', b) { if b != c { assert CallerOk(s, b); } }
    if s.login.Some? {
      var b :| b in s.callers && s.callers[b].LoggingIn?;
      assert b in s'.callers && s'.callers[b].LoggingIn?;
    }
  }

  lemma EnterKeeps(s: State, c: CallerId)
    requires Inv(s) && c in s.callers
    ensures Inv(Step(s, EEnter(c)))
  {
    var x, s' := s.callers[c], Step(s, EEnter(c));
    assert CallerOk(s, c);
    if x.Entering? {
      if Enter(s, x.stale).1.LogIn? {
        forall b | b in s.callers ensures !s.callers[b].LoggingIn? { assert CallerOk(s, b); }
        assert c in s'.callers && s'.callers[c].LoggingIn?;
        forall b | b in s'.callers ensures CallerOk(s', b) { if b != c { assert CallerOk(s, b); } }
      } else {
        CallerKeeps(s, c, s'.callers[c]);
        assert s' == WithCaller(s, c, s'.callers[c]);
      }
    }
  }

  lemma LoginDoneKeeps(s: State, c: CallerId, id: Option<string>)
    requires Inv(s) && c in s.callers
    ensures Inv(Step(s, ELoginDone(c, id)))
  {
    var x, s' := s.callers[c], Step(s, ELoginDone(c, id));
    assert CallerOk(s, c);
    if x.LoggingIn? && id != Some("") {
      forall b | b in s'.callers ensures CallerOk(s', b) { if b != c { assert CallerOk(s, b); } }
    }
  }

  lemma StepKeeps(s: State, e: Event)
    requires Inv(s)
    ensures Inv(Step(s, e))
  {
    if e.caller in s.callers { assert CallerOk(s, e.caller); }
    if e.EEnter? && e.caller in s.callers {
      EnterKeeps(s, e.caller);
    } else if e.ELoginDone? && e.caller in s.callers {
      LoginDoneKeeps(s, e.caller, e.id);
    } else if Step(s, e) != s {
      CallerKeeps(s, e.caller, Step(s, e).callers[e.caller]);
    }
  }

  lemma {:induction false} RunKeeps(events: seq<Event>)
    ensures Inv(Run(events))
  {
    hide Inv, Step;
    if events == [] {
      InitialOk();
    } else {
      RunKeeps(events[..|events| - 1]);
      StepKeeps(Run(events[..|events| - 1]), events[|events| - 1]);
    }
  }

  lemma InitialOk()
    ensures Inv(Initial)
  {
  }

  // ---------------------------------------------------------------------------------------------------------
  // Results
  // ---------------------------------------------------------------------------------------------------------

  /** At most one login is in flight, and the generation counts the logins that succeeded. */
  lemma OneLoginInFlight(events: seq<Event>, s: State, b: CallerId, c: CallerId)
    requires s == Run(events)
    ensures b in s.callers && c in s.callers && s.callers[b].LoggingIn? && s.callers[c].LoggingIn? ==> b == c
    ensures s.session.generation == |s.renewals|
  {
    RunKeeps(events);
  }

  /** Who was refused with one generation receives a session of a later one. */
  lemma NeverTheStaleSession(events: seq<Event>, s: State, c: CallerId)
    requires s == Run(events) && c in s.callers && s.callers[c].Got?
    ensures s.callers[c].session.id != ""
    ensures s.callers[c].stale.Some? ==> s.callers[c].session.generation > s.callers[c].stale.value
  {
    RunKeeps(events);
    assert CallerOk(s, c);
  }

  /** However many callers are refused with generation g, one successful login at most is made for it. */
  lemma OneRenewalPerGeneration(events: seq<Event>, s: State, j: nat, k: nat)
    requires s == Run(events) && j < |s.renewals| && k < |s.renewals|
    ensures s.renewals[j] == s.renewals[k] ==> j == k
    ensures s.renewals[k] == if k == 0 then None else Some(k)
  {
    RunKeeps(events);
  }

  /** Callers given the same generation share one session: the one that generation's login made. */
  lemma GenerationNamesSession(events: seq<Event>, s: State, b: CallerId, c: CallerId)
    requires s == Run(events) && b in s.callers && c in s.callers && s.callers[b].Got? && s.callers[c].Got?
    ensures var g := s.callers[c].session.generation; 1 <= g <= |s.ids| && s.callers[c].session.id == s.ids[g - 1]
    ensures s.callers[b].session.generation == s.callers[c].session.generation ==>
              s.callers[b].session == s.callers[c].session
  {
    RunKeeps(events);
    assert CallerOk(s, b) && CallerOk(s, c);
  }

  /** Whoever waits waits for a login that somebody is making or that is over. */
  lemma WaitersHaveLogin(events: seq<Event>, s: State, c: CallerId)
    requires s == Run(events) && c in s.callers && s.callers[c].Waiting?
    ensures s.callers[c].call < |s.calls|
    ensures s.calls[s.callers[c].call] == InFlight ==>
              exists b | b in s.callers :: s.callers[b].LoggingIn? && s.callers[b].call == s.callers[c].call
  {
    RunKeeps(events);
    assert CallerOk(s, c);
    if s.calls[s.callers[c].call] == InFlight {
      var b :| b in s.callers && s.callers[b].LoggingIn?;
      assert CallerOk(s, b);
    }
  }

  /** When the login succeeds, its caller and everyone who waited for it get the new session. */
  lemma LoginServesAll(events: seq<Event>, s: State, b: CallerId, c: CallerId, id: string)
    requires s == Run(events) && b in s.callers && c in s.callers && id != ""
    requires s.callers[b].LoggingIn? && s.callers[c].Waiting? && s.callers[b].call == s.callers[c].call
    ensures var s' := Step(Step(Step(s, ELoginDone(b, Some(id))), EWake(c)), EEnter(c));
            && b in s'.callers && c in s'.callers
            && s'.callers[b] == Got(s.callers[b].stale, Session(id, s.session.generation + 1))
            && s'.callers[c] == Got(s.callers[c].stale, Session(id, s.session.generation + 1))
  {
    RunKeeps(events);
    assert CallerOk(s, b) && CallerOk(s, c);
  }

  /** The client object's two locked sections. */
  class Client {
    var session: Session
    var login: Option<CallId>
    var calls: seq<Call>
    ghost var renewals: seq<Option<nat>>
    ghost var ids: seq<string>

    constructor ()
      ensures Snapshot() == Initial
    {
      session, login, calls, renewals, ids := Session("", 0), None, [], [], [];
    }

    ghost function Snapshot(): State
      reads this
    {
      State(session, login, calls, map[], renewals, ids)
    }

    method EnsureSession(stale: Option<nat>) returns (entered: Entered)
      modifies this`login, this`calls
      ensures (Snapshot(), entered) == Enter(old(Snapshot()), stale)
    {
      if session.id != "" && (stale.None? || session.generation != stale.value) { return Session_(session); }
      if login.Some? { return WaitFor(login.value); }
      var call := |calls|;
      calls := calls + [InFlight];
      login := Some(call);
      return LogIn(call);
    }

    method LoginDone(call: CallId, stale: Option<nat>, id: Option<string>)
      requires call < |calls|
      modifies this
      ensures Snapshot() == Complete(old(Snapshot()), call, stale, id)
    {
      if id.Some? {
        session := session.(id := id.value);
        session := session.(generation := session.generation + 1);
        renewals, ids := renewals + [stale], ids + [id.value];
      }
      calls := calls[call := if id.Some? then Succeeded else FailedCall];
      login := None;
    }
  }
}
