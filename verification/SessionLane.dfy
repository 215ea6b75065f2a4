/** Session lanes (internal/fincloud/session_coordinator.go). */
module SessionLane {
  // The leases of one username are granted in arrival order, shared while the session context stays the same, alone
  // when exclusive.

  import opened Options

  type Client = nat
  type WaiterId = nat

  datatype Auth = Auth(profile: nat, revision: nat, username: string, password: string, role: string, location: string)

  /** Profile and revision do not matter to a session. */
  predicate SameContext(a: Auth, b: Auth) {
    a.username == b.username && a.password == b.password && a.role == b.role && a.location == b.location
  }

  datatype Epoch = Epoch(auth: Auth, client: Client, exclusive: bool)
  datatype Waiter = Waiter(id: WaiterId, auth: Auth, exclusive: bool)
  datatype Result = Granted(client: Client) | ClientError | ClosedError
  datatype Answer = Answer(id: WaiterId, result: Result)
  datatype Lease = Lease(client: Client, auth: Auth, exclusive: bool)

  /**
   `asked` remembers every arrival, `answered` lists what was sent to waiters, `live` the leases not released yet,
   `removed` the waiters taken out.
  */
  datatype Lane = Lane(
    current: Option<Epoch>,
    active: nat,
    waiters: seq<Waiter>,
    closed: bool,
    asked: map<WaiterId, Waiter>,
    answered: seq<Answer>,
    live: map<WaiterId, Lease>,
    removed: set<WaiterId>,
    nextWaiter: WaiterId,
    nextClient: Client)

  const NewLane := Lane(None, 0, [], false, map[], [], map[], {}, 0, 0)

  // ---------------------------------------------------------------------------------------------------------
  // Granting
  // ---------------------------------------------------------------------------------------------------------

  function Pop(l: Lane, result: Result): Lane
    requires l.waiters != []
  {
    var w := l.waiters[0];
    l.(waiters := l.waiters[1..], answered := l.answered + [Answer(w.id, result)],
       live := if result.Granted? then l.live[w.id := Lease(result.client, w.auth, w.exclusive)] else l.live)
  }

  /** Whether the head may share the current session. */
  predicate Shares(l: Lane, w: Waiter) {
    l.current.Some? && !w.exclusive && SameContext(l.current.value.auth, w.auth)
  }

  /** The first lease of an epoch, with the kept client or a new one, which may not come to be. */
  function Open(l: Lane, fails: WaiterId -> bool): Lane
    requires l.waiters != []
  {
    var w := l.waiters[0];
    if Shares(l, w) then
      Pop(l.(current := Some(Epoch(w.auth, l.current.value.client, w.exclusive)), active := 1), Granted(l.current.value.client))
    else if fails(w.id) then Pop(l, ClientError)
    else
      Pop(l.(current := Some(Epoch(w.auth, l.nextClient, w.exclusive)), active := 1, nextClient := l.nextClient + 1),
          Granted(l.nextClient))
  }

  function Grant(l: Lane, fails: WaiterId -> bool): Lane
    decreases |l.waiters|
  {
    if l.waiters == [] then l
    else if l.closed then Grant(Pop(l, ClosedError), fails)
    else if l.active == 0 then
      var w := l.waiters[0];
      var opened_ := Open(l, fails);
      if opened_.active == 0 then Grant(opened_, fails)
      else if w.exclusive then opened_
      else Share(opened_, fails)
    else Share(l, fails)
  }

  /** The second half of a round: the head joins the running epoch if it may. */
  function Share(l: Lane, fails: WaiterId -> bool): Lane
    decreases |l.waiters|, 0
  {
    if l.waiters == [] || l.current.None? || l.current.value.exclusive || !Shares(l, l.waiters[0]) then l
    else Grant(Pop(l.(active := l.active + 1), Granted(l.current.value.client)), fails)
  }

  // ---------------------------------------------------------------------------------------------------------
  // Operations
  // ---------------------------------------------------------------------------------------------------------

  function Arrived(l: Lane, w: Waiter): Lane {
    l.(waiters := l.waiters + [w], asked := l.asked[w.id := w], nextWaiter := l.nextWaiter + 1)
  }

  function Acquire(l: Lane, auth: Auth, exclusive: bool, fails: WaiterId -> bool): (Lane, Option<WaiterId>) {
    if l.closed then (l, None)
    else
      var w := Waiter(l.nextWaiter, auth, exclusive);
      (Grant(Arrived(l, w), fails), Some(w.id))
  }

  function Without(waiters: seq<Waiter>, id: WaiterId): seq<Waiter> {
    if waiters == [] then []
    else if waiters[0].id == id then waiters[1..]
    else [waiters[0]] + Without(waiters[1..], id)
  }

  predicate Queued(l: Lane, id: WaiterId) {
    exists w <- l.waiters :: w.id == id
  }

  function Cancel(l: Lane, id: WaiterId, fails: WaiterId -> bool): (Lane, bool) {
    if !Queued(l, id) then (l, false)
    else (Grant(l.(waiters := Without(l.waiters, id), removed := l.removed + {id}), fails), true)
  }

  /** A lease is released once; later calls do nothing. */
  function Release(l: Lane, id: WaiterId, fails: WaiterId -> bool): Lane {
    if id !in l.live then l
    else
      var active: nat := if l.active > 0 then l.active - 1 else 0;
      var current :=
        if active == 0 && l.current.Some? then
          (if l.closed then None else Some(l.current.value.(exclusive := false)))
        else l.current;
      Grant(l.(live := l.live - {id}, active := active, current := current), fails)
  }

  /** What an acquirer whose context ends does: leave the queue, or give back what it was granted meanwhile. */
  function GiveUp(l: Lane, id: WaiterId, fails: WaiterId -> bool): Lane {
    var (l', found) := Cancel(l, id, fails);
    if found then l' else Release(l, id, fails)
  }

  function Invalidate(l: Lane, client: Client): Lane {
    if l.current.Some? && l.current.value.client == client then l.(current := None) else l
  }

  function Close(l: Lane, fails: WaiterId -> bool): Lane {
    var l' := Grant(l.(closed := true), fails);
    if l'.active == 0 then l'.(current := None) else l'
  }

  datatype Event =
    | EAcquire(auth: Auth, exclusive: bool)
    | ERelease(id: WaiterId)
    | EGiveUp(id: WaiterId)
    | EInvalidate(client: Client)
    | EClose

  function Step(l: Lane, e: Event, fails: WaiterId -> bool): Lane {
    match e
    case EAcquire(auth, exclusive) => Acquire(l, auth, exclusive, fails).0
    case ERelease(id) => Release(l, id, fails)
    case EGiveUp(id) => GiveUp(l, id, fails)
    case EInvalidate(client) => Invalidate(l, client)
    case EClose => Close(l, fails)
  }

  function Run(events: seq<Event>, fails: WaiterId -> bool): Lane {
    if events == [] then NewLane else Step(Run(events[..|events| - 1], fails), events[|events| - 1], fails)
  }

  // ---------------------------------------------------------------------------------------------------------
  // The invariant
  // ---------------------------------------------------------------------------------------------------------

  ghost predicate Together(l: Lane, i: WaiterId, j: WaiterId)
    requires i in l.live && j in l.live
  {
    && l.live[i].client == l.live[j].client
    && SameContext(l.live[i].auth, l.live[j].auth)
    && (l.live[i].exclusive ==> i == j)
  }

  ghost predicate InEpoch(l: Lane, i: WaiterId)
    requires l.current.Some? && i in l.live
  {
    && l.live[i].client == l.current.value.client
    && SameContext(l.current.value.auth, l.live[i].auth)
    && (l.live[i].exclusive ==> l.current.value.exclusive)
  }

  /** Live leases share one client and session context, and an exclusive lease is alone. */
  ghost predicate LeasesOk(l: Lane) {
    && l.active == |l.live|
    && (forall i, j {:trigger Together(l, i, j)} | i in l.live && j in l.live :: Together(l, i, j))
    && (l.current.Some? ==> forall i {:trigger InEpoch(l, i)} | i in l.live :: InEpoch(l, i))
    && (l.current.Some? && l.active == 0 ==> !l.current.value.exclusive)
    && (l.current.Some? ==> l.current.value.client < l.nextClient)
  }

  /** The waiters answered so far, followed by those still queued. */
  function Ids(l: Lane): (r: seq<WaiterId>)
    ensures |r| == |l.answered| + |l.waiters|
  {
    seq(|l.answered|, i requires 0 <= i < |l.answered| => l.answered[i].id)
    + seq(|l.waiters|, i requires 0 <= i < |l.waiters| => l.waiters[i].id)
  }

  ghost predicate Increasing(ids: seq<WaiterId>) {
    forall i, j | 0 <= i < j < |ids| :: ids[i] < ids[j]
  }

  /** Every waiter that arrived is answered, queued or removed, and only one of these; answers come in arrival order. */
  ghost predicate Accounted(ids: seq<WaiterId>, removed: set<WaiterId>, next: WaiterId) {
    && Increasing(ids)
    && (forall id <- ids :: id < next && id !in removed)
    && (forall id <- removed :: id < next)
    && (forall id: WaiterId :: id < next ==> id in removed || id in ids)
  }

  ghost predicate LiveOk(l: Lane, id: WaiterId)
    requires id in l.live
  {
    Answer(id, Granted(l.live[id].client)) in l.answered
  }

  ghost predicate QueueOk(l: Lane) {
    && Accounted(Ids(l), l.removed, l.nextWaiter)
    && (forall id {:trigger LiveOk(l, id)} | id in l.live :: LiveOk(l, id))
  }

  /** Only what blocks the head keeps a queue waiting. */
  ghost predicate Settled(l: Lane) {
    && (l.waiters != [] ==>
          !l.closed && l.active > 0 && (l.current.None? || l.current.value.exclusive || !Shares(l, l.waiters[0])))
    && (l.closed && l.active == 0 ==> l.current.None?)
  }

  ghost predicate Inv(l: Lane) {
    LeasesOk(l) && QueueOk(l) && Settled(l)
  }

  // ---------------------------------------------------------------------------------------------------------
  // Granting restores it
  // ---------------------------------------------------------------------------------------------------------

  lemma PopKeepsQueue(l: Lane, l1: Lane, result: Result)
    requires QueueOk(l) && l.waiters != []
    requires l1.waiters == l.waiters && l1.answered == l.answered && l1.removed == l.removed && l1.live == l.live
    requires l1.nextWaiter == l.nextWaiter
    ensures QueueOk(Pop(l1, result)) && l.waiters[0].id !in l.live
  {
    hide Accounted;
    var l' := Pop(l1, result);
    assert Ids(l') == Ids(l);
    HeadIsNew(l);
    forall id | id in l'.live ensures LiveOk(l', id) {
      if id == l.waiters[0].id {
        assert l'.answered[|l.answered|] == Answer(id, result);
      } else {
        assert LiveOk(l, id);
        assert Answer(id, Granted(l.live[id].client)) in l.answered;
      }
    }
  }

  lemma AnsweredFirst(l: Lane, i: nat, j: nat)
    requires QueueOk(l) && i < |l.answered| && j < |l.waiters|
    ensures l.answered[i].id < l.waiters[j].id
  {
    assert Ids(l)[i] < Ids(l)[|l.answered| + j];
  }

  lemma HeadIsNew(l: Lane)
    requires QueueOk(l) && l.waiters != []
    ensures l.waiters[0].id !in l.live
  {
    forall id | id in l.live ensures id < l.waiters[0].id {
      assert LiveOk(l, id);
      var i :| 0 <= i < |l.answered| && l.answered[i].id == id;
      AnsweredFirst(l, i, 0);
    }
  }

  /** A first lease, or one more of the same epoch. */
  lemma GrantedLease(l: Lane, l1: Lane, client: Client)
    requires LeasesOk(l) && l.waiters != [] && l.waiters[0].id !in l.live
    requires l1.waiters == l.waiters && l1.live == l.live && l1.active == l.active + 1 && l1.nextClient >= l.nextClient
    requires l1.current.Some? && l1.current.value.client == client < l1.nextClient
    requires SameContext(l1.current.value.auth, l.waiters[0].auth) && l1.current.value.exclusive == l.waiters[0].exclusive
    requires l.active == 0 || (l1.current == l.current && !l.waiters[0].exclusive)
    ensures LeasesOk(Pop(l1, Granted(client)))
  {
    var l', id := Pop(l1, Granted(client)), l.waiters[0].id;
    assert |l'.live| == |l'.live.Keys| && |l.live| == |l.live.Keys| && l'.live.Keys == l.live.Keys + {id};
    assert l.active == 0 ==> l.live == map[];
    forall i | i in l'.live ensures InEpoch(l', i) {
      if i in l.live && l1.current == l.current { assert InEpoch(l, i); }
    }
    forall i, j | i in l'.live && j in l'.live ensures Together(l', i, j) {
      assert InEpoch(l', i) && InEpoch(l', j);
    }
  }

  lemma OpenKeeps(l: Lane, fails: WaiterId -> bool)
    requires LeasesOk(l) && QueueOk(l) && l.waiters != [] && l.active == 0
    ensures LeasesOk(Open(l, fails)) && QueueOk(Open(l, fails)) && Open(l, fails).closed == l.closed
    ensures Open(l, fails).active > 0 ==>
      Open(l, fails).current.Some? && Open(l, fails).current.value.exclusive == l.waiters[0].exclusive
  {
    hide LeasesOk, QueueOk, LiveOk;
    var w := l.waiters[0];
    HeadIsNew(l);
    if Shares(l, w) {
      CurrentClient(l);
      var l1 := l.(current := Some(Epoch(w.auth, l.current.value.client, w.exclusive)), active := 1);
      GrantedLease(l, l1, l.current.value.client);
      PopKeepsQueue(l, l1, Granted(l.current.value.client));
    } else if fails(w.id) {
      ClosedPop(l, ClientError);
      PopKeepsQueue(l, l, ClientError);
    } else {
      var l1 := l.(current := Some(Epoch(w.auth, l.nextClient, w.exclusive)), active := 1, nextClient := l.nextClient + 1);
      GrantedLease(l, l1, l.nextClient);
      PopKeepsQueue(l, l1, Granted(l.nextClient));
    }
  }

  lemma CurrentClient(l: Lane)
    requires LeasesOk(l) && l.current.Some?
    ensures l.current.value.client < l.nextClient
  {
  }

  lemma ShareKeeps(l: Lane)
    requires LeasesOk(l) && QueueOk(l) && l.waiters != [] && l.active > 0
    requires l.current.Some? && !l.current.value.exclusive && Shares(l, l.waiters[0])
    ensures var l' := Pop(l.(active := l.active + 1), Granted(l.current.value.client));
            LeasesOk(l') && QueueOk(l')
  {
    hide LeasesOk, QueueOk, LiveOk;
    HeadIsNew(l);
    CurrentClient(l);
    GrantedLease(l, l.(active := l.active + 1), l.current.value.client);
    PopKeepsQueue(l, l.(active := l.active + 1), Granted(l.current.value.client));
  }

  lemma ClosedPop(l: Lane, result: Result)
    requires LeasesOk(l) && l.waiters != [] && !result.Granted?
    ensures LeasesOk(Pop(l, result))
  {
    SameLeases(l, Pop(l, result));
  }

  lemma {:induction false} GrantKeeps(l: Lane, fails: WaiterId -> bool)
    requires LeasesOk(l) && QueueOk(l)
    requires l.closed ==> l.active > 0 || l.current.None?
    ensures Inv(Grant(l, fails))
    decreases |l.waiters|, 1
  {
    hide LeasesOk, QueueOk;
    if l.waiters != [] {
      if l.closed {
        PopKeepsQueue(l, l, ClosedError);
        ClosedPop(l, ClosedError);
        GrantKeeps(Pop(l, ClosedError), fails);
      } else if l.active == 0 {
        OpenKeeps(l, fails);
        var o := Open(l, fails);
        if o.active == 0 {
          GrantKeeps(o, fails);
        } else if !l.waiters[0].exclusive {
          ShareSettles(o, fails);
        }
      } else {
        ShareSettles(l, fails);
      }
    }
  }

  lemma {:induction false} ShareSettles(l: Lane, fails: WaiterId -> bool)
    requires LeasesOk(l) && QueueOk(l) && !l.closed && l.active > 0
    ensures Inv(Share(l, fails))
    decreases |l.waiters|, 0
  {
    hide LeasesOk, QueueOk;
    if l.waiters != [] && l.current.Some? && !l.current.value.exclusive && Shares(l, l.waiters[0]) {
      ShareKeeps(l);
      GrantKeeps(Pop(l.(active := l.active + 1), Granted(l.current.value.client)), fails);
    }
  }

  // ---------------------------------------------------------------------------------------------------------
  // Operations keep it
  // ---------------------------------------------------------------------------------------------------------

  lemma AcquireKeeps(l: Lane, auth: Auth, exclusive: bool, fails: WaiterId -> bool)
    requires Inv(l)
    ensures Inv(Acquire(l, auth, exclusive, fails).0)
  {
    if !l.closed {
      var l1 := Arrived(l, Waiter(l.nextWaiter, auth, exclusive));
      assert Ids(l1) == Ids(l) + [l.nextWaiter];
      AddOne(Ids(l), l.removed, l.nextWaiter);
      SameLeases(l, l1);
      forall id | id in l1.live ensures LiveOk(l1, id) { assert LiveOk(l, id); }
      GrantKeeps(l1, fails);
    }
  }

  lemma {:induction false} WithoutOne(waiters: seq<Waiter>, id: WaiterId) returns (k: nat)
    requires exists w <- waiters :: w.id == id
    ensures k < |waiters| && waiters[k].id == id
    ensures Without(waiters, id) == waiters[..k] + waiters[k + 1..]
  {
    if waiters[0].id == id {
      k := 0;
    } else {
      var w :| w in waiters && w.id == id;
      assert w in waiters[1..];
      k := WithoutOne(waiters[1..], id);
      k := k + 1;
    }
  }

  lemma SameLeases(l: Lane, l1: Lane)
    requires LeasesOk(l) && l1.live == l.live && l1.active == l.active && l1.nextClient == l.nextClient
    requires l1.current == l.current || l1.current.None?
    ensures LeasesOk(l1)
  {
    forall i, j | i in l1.live && j in l1.live ensures Together(l1, i, j) { assert Together(l, i, j); }
    if l1.current.Some? {
      forall i | i in l1.live ensures InEpoch(l1, i) { assert InEpoch(l, i); }
    }
  }

  lemma AddOne(ids: seq<WaiterId>, removed: set<WaiterId>, next: WaiterId)
    requires Accounted(ids, removed, next)
    ensures Accounted(ids + [next], removed, next + 1)
  {
    forall i | 0 <= i < |ids| ensures ids[i] < next { assert ids[i] in ids; }
    forall id: WaiterId | id < next + 1 ensures id in removed || id in ids + [next] {
      assert (ids + [next])[|ids|] == next;
      assert id < next ==> id in removed || id in ids;
    }
  }

  lemma RemoveOne(ids: seq<WaiterId>, removed: set<WaiterId>, next: WaiterId, k: nat)
    requires Accounted(ids, removed, next) && k < |ids|
    ensures Accounted(ids[..k] + ids[k + 1..], removed + {ids[k]}, next)
  {
    var rest := ids[..k] + ids[k + 1..];
    RestIsOthers(ids, k, rest);
    assert ids[k] in ids;
  }

  lemma RestIsOthers(ids: seq<WaiterId>, k: nat, rest: seq<WaiterId>)
    requires Increasing(ids) && k < |ids| && rest == ids[..k] + ids[k + 1..]
    ensures Increasing(rest)
    ensures forall id :: id in rest <==> id in ids && id != ids[k]
  {
    forall i | 0 <= i < |rest| ensures rest[i] == ids[if i < k then i else i + 1] {}
    forall id ensures id in rest <==> id in ids && id != ids[k] {
      if id in rest {
        var i :| 0 <= i < |rest| && rest[i] == id;
        var j := if i < k then i else i + 1;
        assert ids[j] == id && (j < k || k < j);
      }
      if id in ids && id != ids[k] {
        var i :| 0 <= i < |ids| && ids[i] == id;
        assert rest[if i < k then i else i - 1] == id;
      }
    }
  }

  lemma CancelKeeps(l: Lane, id: WaiterId, fails: WaiterId -> bool)
    requires Inv(l)
    ensures Inv(Cancel(l, id, fails).0)
  {
    if Queued(l, id) {
      var k := WithoutOne(l.waiters, id);
      var l1 := l.(waiters := Without(l.waiters, id), removed := l.removed + {id});
      var n := |l.answered| + k;
      assert Ids(l1) == Ids(l)[..n] + Ids(l)[n + 1..] && Ids(l)[n] == id;
      RemoveOne(Ids(l), l.removed, l.nextWaiter, n);
      SameLeases(l, l1);
      forall i | i in l1.live ensures LiveOk(l1, i) { assert LiveOk(l, i); }
      GrantKeeps(l1, fails);
    }
  }

  lemma ReleaseKeeps(l: Lane, id: WaiterId, fails: WaiterId -> bool)
    requires Inv(l)
    ensures Inv(Release(l, id, fails))
  {
    if id in l.live {
      var live := l.live - {id};
      assert live.Keys == l.live.Keys - {id} && |live| == |live.Keys| && |l.live| == |l.live.Keys|;
      var active := l.active - 1;
      var current :=
        if active == 0 && l.current.Some? then
          (if l.closed then None else Some(l.current.value.(exclusive := false)))
        else l.current;
      var l1 := l.(live := live, active := active, current := current);
      assert Ids(l1) == Ids(l);
      forall i | i in l1.live ensures LiveOk(l1, i) { assert LiveOk(l, i); }
      assert active == 0 ==> live == map[];
      forall i, j | i in l1.live && j in l1.live ensures Together(l1, i, j) { assert Together(l, i, j); }
      if l1.current.Some? {
        forall i | i in l1.live ensures InEpoch(l1, i) { assert InEpoch(l, i); }
      }
      GrantKeeps(l1, fails);
    }
  }

  lemma InvalidateKeeps(l: Lane, client: Client)
    requires Inv(l)
    ensures Inv(Invalidate(l, client))
  {
    var l1 := Invalidate(l, client);
    SameLeases(l, l1);
    assert Ids(l1) == Ids(l);
    forall i | i in l1.live ensures LiveOk(l1, i) { assert LiveOk(l, i); }
  }

  lemma CloseKeeps(l: Lane, fails: WaiterId -> bool)
    requires Inv(l)
    ensures Inv(Close(l, fails))
  {
    var l1 := l.(closed := true);
    assert Ids(l1) == Ids(l);
    forall i | i in l1.live ensures LiveOk(l1, i) { assert LiveOk(l, i); }
    SameLeases(l, l1);
    if l.active > 0 {
      GrantKeeps(l1, fails);
      ClosedGrantStays(l1, fails);
    } else {
      var l2 := l1.(current := None);
      assert Ids(l2) == Ids(l) && l2.live == map[];
    }
  }

  lemma {:induction false} ClosedGrantStays(l: Lane, fails: WaiterId -> bool)
    requires l.closed
    ensures Grant(l, fails).active == l.active && Grant(l, fails).current == l.current && Grant(l, fails).waiters == []
    decreases |l.waiters|
  {
    if l.waiters != [] { ClosedGrantStays(Pop(l, ClosedError), fails); }
  }

  lemma StepKeeps(l: Lane, e: Event, fails: WaiterId -> bool)
    requires Inv(l)
    ensures Inv(Step(l, e, fails))
  {
    hide Inv, Acquire, Release, Invalidate, Close, Cancel;
    match e
    case EAcquire(auth, exclusive) => AcquireKeeps(l, auth, exclusive, fails);
    case ERelease(id) => ReleaseKeeps(l, id, fails);
    case EGiveUp(id) => CancelKeeps(l, id, fails); ReleaseKeeps(l, id, fails);
    case EInvalidate(client) => InvalidateKeeps(l, client);
    case EClose => CloseKeeps(l, fails);
  }

  lemma {:induction false} RunKeeps(events: seq<Event>, fails: WaiterId -> bool)
    ensures Inv(Run(events, fails))
  {
    hide Inv, Step;
    if events == [] {
      NewLaneOk();
    } else {
      RunKeeps(events[..|events| - 1], fails);
      StepKeeps(Run(events[..|events| - 1], fails), events[|events| - 1], fails);
    }
  }

  lemma NewLaneOk()
    ensures Inv(NewLane)
  {
    assert Ids(NewLane) == [];
  }

  // ---------------------------------------------------------------------------------------------------------
  // What follows in every reachable state
  // ---------------------------------------------------------------------------------------------------------

  /** Live leases use one client and one session context; an exclusive lease is alone; `active` counts them. */
  lemma LeasesShareOneSession(events: seq<Event>, fails: WaiterId -> bool, l: Lane, i: WaiterId, j: WaiterId)
    requires l == Run(events, fails) && i in l.live && j in l.live
    ensures l.live[i].client == l.live[j].client && SameContext(l.live[i].auth, l.live[j].auth)
    ensures l.live[i].exclusive ==> i == j
    ensures l.active == |l.live|
  {
    RunKeeps(events, fails);
    assert Together(l, i, j);
  }

  /** Each arrival is in exactly one of the three places, once; and answers were given in arrival order. */
  lemma AnsweredOrRemovedOnce(events: seq<Event>, fails: WaiterId -> bool, l: Lane, id: WaiterId)
    requires l == Run(events, fails) && id < l.nextWaiter
    ensures id in l.removed <==> id !in Ids(l)
    ensures forall i, j | 0 <= i < |Ids(l)| && 0 <= j < |Ids(l)| :: Ids(l)[i] == id && Ids(l)[j] == id ==> i == j
    ensures forall i, j | 0 <= i < j < |l.answered| :: l.answered[i].id < l.answered[j].id
    ensures forall a, w | a in l.answered && w in l.waiters :: a.id < w.id
  {
    RunKeeps(events, fails);
    forall i, j | 0 <= i < j < |l.answered| ensures l.answered[i].id < l.answered[j].id {
      assert Ids(l)[i] < Ids(l)[j];
    }
    forall a, w | a in l.answered && w in l.waiters ensures a.id < w.id {
      var i :| 0 <= i < |l.answered| && l.answered[i] == a;
      var j :| 0 <= j < |l.waiters| && l.waiters[j] == w;
      assert Ids(l)[i] < Ids(l)[|l.answered| + j];
    }
  }

  /** A queue waits only behind an active lease that its head may not share; a closed idle lane holds no client. */
  lemma QueueIsBlocked(events: seq<Event>, fails: WaiterId -> bool, l: Lane)
    requires l == Run(events, fails)
    ensures l.waiters != [] ==>
      && l.live != map[]
      && (l.current.None? || l.current.value.exclusive || l.waiters[0].exclusive
          || !SameContext(l.current.value.auth, l.waiters[0].auth))
    ensures l.closed ==> l.waiters == []
    ensures l.closed && l.live == map[] ==> l.current.None?
  {
    RunKeeps(events, fails);
  }

  /** Who gives up neither waits nor holds a lease afterwards. */
  lemma GivenUpHoldsNothing(events: seq<Event>, fails: WaiterId -> bool, l: Lane, id: WaiterId)
    requires l == Run(events, fails)
    ensures id !in GiveUp(l, id, fails).live && !Queued(GiveUp(l, id, fails), id)
  {
    RunKeeps(events, fails);
    StepKeeps(l, EGiveUp(id), fails);
    if Queued(l, id) {
      GrantFrame(l.(waiters := Without(l.waiters, id), removed := l.removed + {id}), fails);
      GoneFrom(GiveUp(l, id, fails), id);
    } else if id in l.live {
      ReleasedFrame(l, id, fails);
    }
  }

  lemma ReleasedFrame(l: Lane, id: WaiterId, fails: WaiterId -> bool)
    requires id in l.live && !Queued(l, id)
    ensures id !in Release(l, id, fails).live && !Queued(Release(l, id, fails), id)
  {
    var active: nat := if l.active > 0 then l.active - 1 else 0;
    var current :=
      if active == 0 && l.current.Some? then
        (if l.closed then None else Some(l.current.value.(exclusive := false)))
      else l.current;
    GrantFrame(l.(live := l.live - {id}, active := active, current := current), fails);
  }

  /** Granting removes nobody, and gives leases only to those who were queued. */
  lemma {:induction false} GrantFrame(l: Lane, fails: WaiterId -> bool)
    ensures Grant(l, fails).removed == l.removed
    ensures forall id | id in Grant(l, fails).live :: id in l.live || Queued(l, id)
    ensures forall w | w in Grant(l, fails).waiters :: w in l.waiters
    decreases |l.waiters|, 1
  {
    if l.waiters != [] {
      if l.closed {
        GrantFrame(Pop(l, ClosedError), fails);
      } else if l.active == 0 {
        var o := Open(l, fails);
        if o.active == 0 {
          GrantFrame(o, fails);
        } else if !l.waiters[0].exclusive {
          ShareFrame(o, fails);
        }
      } else {
        ShareFrame(l, fails);
      }
    }
  }

  lemma {:induction false} ShareFrame(l: Lane, fails: WaiterId -> bool)
    ensures Share(l, fails).removed == l.removed
    ensures forall id | id in Share(l, fails).live :: id in l.live || Queued(l, id)
    ensures forall w | w in Share(l, fails).waiters :: w in l.waiters
    decreases |l.waiters|, 0
  {
    if !(l.waiters == [] || l.current.None? || l.current.value.exclusive || !Shares(l, l.waiters[0])) {
      GrantFrame(Pop(l.(active := l.active + 1), Granted(l.current.value.client)), fails);
    }
  }

  lemma GoneFrom(l: Lane, id: WaiterId)
    requires Inv(l) && id in l.removed
    ensures id !in l.live && !Queued(l, id)
  {
    forall k | k in l.live ensures k !in l.removed {
      assert LiveOk(l, k);
      var i :| 0 <= i < |l.answered| && l.answered[i].id == k;
      assert Ids(l)[i] in Ids(l);
    }
    forall w | w in l.waiters ensures w.id !in l.removed {
      var i :| 0 <= i < |l.waiters| && l.waiters[i] == w;
      assert Ids(l)[|l.answered| + i] in Ids(l);
    }
  }

  // ---------------------------------------------------------------------------------------------------------
  // Invalidation
  // ---------------------------------------------------------------------------------------------------------

  /** The lane no longer keeps the client. */
  predicate Retired(l: Lane, client: Client) {
    client < l.nextClient && (l.current.Some? ==> l.current.value.client != client)
  }

  /** Leases that were not live before have another client. */
  ghost predicate NewLeasesAvoid(l: Lane, l': Lane, client: Client) {
    forall id | id in l'.live :: (id in l.live && l'.live[id] == l.live[id]) || l'.live[id].client != client
  }

  lemma {:induction false} GrantAvoids(l: Lane, fails: WaiterId -> bool, client: Client)
    requires Retired(l, client)
    ensures Retired(Grant(l, fails), client) && NewLeasesAvoid(l, Grant(l, fails), client)
    decreases |l.waiters|, 1
  {
    if l.waiters != [] {
      if l.closed {
        GrantAvoids(Pop(l, ClosedError), fails, client);
      } else if l.active == 0 {
        var opened_ := Open(l, fails);
        if opened_.active == 0 {
          GrantAvoids(opened_, fails, client);
        } else if !l.waiters[0].exclusive {
          ShareAvoids(opened_, fails, client);
        }
      } else {
        ShareAvoids(l, fails, client);
      }
    }
  }

  lemma {:induction false} ShareAvoids(l: Lane, fails: WaiterId -> bool, client: Client)
    requires Retired(l, client)
    ensures Retired(Share(l, fails), client) && NewLeasesAvoid(l, Share(l, fails), client)
    decreases |l.waiters|, 0
  {
    if !(l.waiters == [] || l.current.None? || l.current.value.exclusive || !Shares(l, l.waiters[0])) {
      GrantAvoids(Pop(l.(active := l.active + 1), Granted(l.current.value.client)), fails, client);
    }
  }

  lemma StepAvoids(l: Lane, e: Event, fails: WaiterId -> bool, client: Client)
    requires Retired(l, client)
    ensures Retired(Step(l, e, fails), client) && NewLeasesAvoid(l, Step(l, e, fails), client)
  {
    hide Grant;
    match e
    case EAcquire(auth, exclusive) =>
      if !l.closed {
        var w := Waiter(l.nextWaiter, auth, exclusive);
        GrantAvoids(Arrived(l, w), fails, client);
      }
    case ERelease(id) => ReleaseAvoids(l, id, fails, client);
    case EGiveUp(id) =>
      if Queued(l, id) {
        GrantAvoids(l.(waiters := Without(l.waiters, id), removed := l.removed + {id}), fails, client);
      } else {
        ReleaseAvoids(l, id, fails, client);
      }
    case EInvalidate(_) =>
    case EClose => GrantAvoids(l.(closed := true), fails, client);
  }

  lemma ReleaseAvoids(l: Lane, id: WaiterId, fails: WaiterId -> bool, client: Client)
    requires Retired(l, client)
    ensures Retired(Release(l, id, fails), client) && NewLeasesAvoid(l, Release(l, id, fails), client)
  {
    hide Grant;
    if id in l.live {
      var active: nat := if l.active > 0 then l.active - 1 else 0;
      var current :=
        if active == 0 && l.current.Some? then
          (if l.closed then None else Some(l.current.value.(exclusive := false)))
        else l.current;
      GrantAvoids(l.(live := l.live - {id}, active := active, current := current), fails, client);
    }
  }

  /** A client whose session failed is never handed out again: whoever still holds it had it before. */
  lemma {:induction false} InvalidatedIsRetired(before: seq<Event>, more: seq<Event>, fails: WaiterId -> bool, client: Client)
    requires Run(before, fails).current.Some? && Run(before, fails).current.value.client == client
    ensures var l, l' := Run(before, fails), Run(before + [EInvalidate(client)] + more, fails);
            && Invalidate(l, client).live == l.live && Invalidate(l, client).waiters == l.waiters
            && Retired(l', client) && NewLeasesAvoid(l, l', client)
  {
    var start := before + [EInvalidate(client)];
    RunMore(before, EInvalidate(client), fails);
    hide Run;
    if more == [] {
      assert start + more == start;
      hide QueueOk;
      RunKeeps(before, fails);
    } else {
      hide Step;
      var n := |more| - 1;
      assert start + more == (start + more[..n]) + [more[n]];
      RunMore(start + more[..n], more[n], fails);
      InvalidatedIsRetired(before, more[..n], fails, client);
      StepAvoids(Run(start + more[..n], fails), more[n], fails, client);
    }
  }

  lemma RunMore(events: seq<Event>, e: Event, fails: WaiterId -> bool)
    ensures Run(events + [e], fails) == Step(Run(events, fails), e, fails)
  {
    hide Step;
    assert (events + [e])[..|events + [e]| - 1] == events;
  }
}
