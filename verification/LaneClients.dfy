/** Which client a session lane hands out: one made for the asking context, kept as long as that context asks. */
module LaneClients {
  import opened Options
  import opened SessionLane

  /** Waiters and leases are those that asked. */
  ghost predicate AskedOk(l: Lane) {
    && (forall id <- l.asked :: id < l.nextWaiter)
    && (forall w <- l.waiters :: w.id in l.asked && l.asked[w.id] == w)
    && (forall a <- l.answered :: a.id in l.asked)
    && (forall id <- l.live ::
          id in l.asked && l.live[id].auth == l.asked[id].auth && l.live[id].exclusive == l.asked[id].exclusive)
  }

  /** A client that was not made for the waiter had been handed out before. */
  ghost predicate AnswerOk(l: Lane, fails: WaiterId -> bool, n: nat)
    requires n < |l.answered|
  {
    match l.answered[n].result
    case ClosedError => l.closed
    case ClientError => fails(l.answered[n].id)
    case Granted(c) =>
      && c < l.nextClient
      && (fails(l.answered[n].id) ==> exists m | 0 <= m < n :: l.answered[m].result == Granted(c))
  }

  /** Clients are never taken back into use, and handed out again in the same context only, never to be used alone. */
  ghost predicate PairOk(l: Lane, m: nat, n: nat)
    requires AskedOk(l) && m < n < |l.answered|
  {
    var a, b := l.answered[m], l.answered[n];
    a.result.Granted? && b.result.Granted? ==>
      && a.result.client <= b.result.client
      && (a.result.client == b.result.client ==>
            SameContext(l.asked[a.id].auth, l.asked[b.id].auth) && !l.asked[b.id].exclusive)
  }

  /** The kept client is the last one handed out, in its context. */
  ghost predicate LastOk(l: Lane, n: nat)
    requires AskedOk(l) && l.current.Some? && n < |l.answered|
  {
    var a := l.answered[n];
    a.result.Granted? ==>
      && a.result.client <= l.current.value.client
      && (a.result.client == l.current.value.client ==> SameContext(l.asked[a.id].auth, l.current.value.auth))
  }

  ghost predicate History(l: Lane, fails: WaiterId -> bool) {
    && AskedOk(l)
    && (forall n {:trigger AnswerOk(l, fails, n)} | 0 <= n < |l.answered| :: AnswerOk(l, fails, n))
    && (forall m, n {:trigger PairOk(l, m, n)} | 0 <= m < n < |l.answered| :: PairOk(l, m, n))
    && (l.current.Some? ==>
          && l.current.value.client < l.nextClient
          && (exists n | 0 <= n < |l.answered| :: l.answered[n].result == Granted(l.current.value.client))
          && (forall n {:trigger LastOk(l, n)} | 0 <= n < |l.answered| :: LastOk(l, n)))
  }

  /** One answer more, to the head of the queue. */
  lemma PopHistory(l: Lane, l1: Lane, fails: WaiterId -> bool, result: Result)
    requires History(l, fails) && l.waiters != []
    requires l1 == l.(current := l1.current, active := l1.active, nextClient := l1.nextClient)
    requires l.nextClient <= l1.nextClient
    requires match result
             case ClosedError => l.closed && l1.current == l.current
             case ClientError => fails(l.waiters[0].id) && l1.current == l.current
             case Granted(c) =>
               && c < l1.nextClient && l1.current.Some? && l1.current.value.client == c
               && SameContext(l.waiters[0].auth, l1.current.value.auth)
               && if c == l.nextClient then !fails(l.waiters[0].id)
                  else l.current.Some? && l.current.value.client == c && !l.waiters[0].exclusive
                       && SameContext(l.current.value.auth, l.waiters[0].auth)
    ensures History(Pop(l1, result), fails)
  {
    var l', w, last := Pop(l1, result), l.waiters[0], |l.answered|;
    assert w in l.waiters && l'.answered[last] == Answer(w.id, result);
    forall a <- l'.answered ensures a.id in l'.asked {
      if a !in l.answered { assert a == l'.answered[last]; }
    }
    assert AskedOk(l');
    forall n | 0 <= n < last ensures l'.answered[n] == l.answered[n] && AnswerOk(l', fails, n) {
      assert AnswerOk(l, fails, n);
      if l.answered[n].result.Granted? && fails(l.answered[n].id) {
        var m :| 0 <= m < n && l.answered[m].result == l.answered[n].result;
        assert l'.answered[m].result == l'.answered[n].result;
      }
    }
    if result.Granted? && result.client != l.nextClient {
      var n :| 0 <= n < last && l.answered[n].result == result;
      assert l'.answered[n].result == result;
    }
    assert AnswerOk(l', fails, last);
    forall m, n | 0 <= m < n < |l'.answered| ensures PairOk(l', m, n) {
      assert AnswerOk(l, fails, m);
      if n < last { assert PairOk(l, m, n); } else if l.current.Some? { assert LastOk(l, m); }
    }
    if l'.current.Some? {
      if result.Granted? {
        assert l'.answered[last].result == Granted(l'.current.value.client);
      } else {
        var n :| 0 <= n < last && l.answered[n].result == Granted(l.current.value.client);
        assert l'.answered[n].result == Granted(l'.current.value.client);
      }
      forall n | 0 <= n < |l'.answered| ensures LastOk(l', n) {
        if n < last {
          assert AnswerOk(l, fails, n);
          if l.current.Some? { assert LastOk(l, n); }
        }
      }
    }
  }

  lemma {:induction false} GrantHistory(l: Lane, fails: WaiterId -> bool)
    requires History(l, fails)
    ensures History(Grant(l, fails), fails)
    decreases |l.waiters|, 1
  {
    hide AskedOk, History;
    if l.waiters != [] {
      if l.closed {
        PopHistory(l, l, fails, ClosedError);
        GrantHistory(Pop(l, ClosedError), fails);
      } else if l.active == 0 {
        OpenHistory(l, fails);
        var o := Open(l, fails);
        if o.active == 0 {
          GrantHistory(o, fails);
        } else if !l.waiters[0].exclusive {
          ShareHistory(o, fails);
        }
      } else {
        ShareHistory(l, fails);
      }
    }
  }

  lemma OpenHistory(l: Lane, fails: WaiterId -> bool)
    requires History(l, fails) && l.waiters != []
    ensures History(Open(l, fails), fails)
  {
    CurrentBefore(l, fails);
    hide AskedOk, History;
    var w := l.waiters[0];
    if Shares(l, w) {
      var c := l.current.value.client;
      PopHistory(l, l.(current := Some(Epoch(w.auth, c, w.exclusive)), active := 1), fails, Granted(c));
    } else if fails(w.id) {
      PopHistory(l, l, fails, ClientError);
    } else {
      var epoch := Epoch(w.auth, l.nextClient, w.exclusive);
      var l1 := l.(current := Some(epoch), active := 1, nextClient := l.nextClient + 1);
      PopHistory(l, l1, fails, Granted(l.nextClient));
    }
  }

  lemma CurrentBefore(l: Lane, fails: WaiterId -> bool)
    requires History(l, fails)
    ensures l.current.Some? ==> l.current.value.client < l.nextClient
  {
  }

  lemma {:induction false} ShareHistory(l: Lane, fails: WaiterId -> bool)
    requires History(l, fails)
    ensures History(Share(l, fails), fails)
    decreases |l.waiters|, 0
  {
    if !(l.waiters == [] || l.current.None? || l.current.value.exclusive || !Shares(l, l.waiters[0])) {
      CurrentBefore(l, fails);
      hide AskedOk, History;
      PopHistory(l, l.(active := l.active + 1), fails, Granted(l.current.value.client));
      GrantHistory(Pop(l.(active := l.active + 1), Granted(l.current.value.client)), fails);
    }
  }

  /** Arrivals, departures and forgetting the kept client change no answer. */
  lemma SameHistory(l: Lane, l': Lane, fails: WaiterId -> bool)
    requires History(l, fails) && AskedOk(l') && l'.answered == l.answered && l'.nextClient == l.nextClient
    requires l.closed ==> l'.closed
    requires forall id <- l.asked :: id in l'.asked && l'.asked[id] == l.asked[id]
    requires l'.current.None? || (l.current.Some? && l'.current.value.client == l.current.value.client
                                  && l'.current.value.auth == l.current.value.auth)
    ensures History(l', fails)
  {
    forall n | 0 <= n < |l'.answered| ensures AnswerOk(l', fails, n) { assert AnswerOk(l, fails, n); }
    forall m, n | 0 <= m < n < |l'.answered| ensures PairOk(l', m, n) { assert PairOk(l, m, n); }
    if l'.current.Some? {
      forall n | 0 <= n < |l'.answered| ensures LastOk(l', n) { assert LastOk(l, n); }
    }
  }

  lemma StepHistory(l: Lane, e: Event, fails: WaiterId -> bool)
    requires History(l, fails)
    ensures History(Step(l, e, fails), fails)
  {
    hide Grant, History;
    match e
    case EAcquire(auth, exclusive) =>
      if !l.closed {
        var w := Waiter(l.nextWaiter, auth, exclusive);
        ArrivedAsked(l, w, fails);
        SameHistory(l, Arrived(l, w), fails);
        GrantHistory(Arrived(l, w), fails);
      }
    case ERelease(id) => ReleaseHistory(l, id, fails);
    case EGiveUp(id) =>
      if Queued(l, id) {
        var l1 := l.(waiters := Without(l.waiters, id), removed := l.removed + {id});
        WithoutAsked(l, id, fails);
        SameHistory(l, l1, fails);
        GrantHistory(l1, fails);
      } else {
        ReleaseHistory(l, id, fails);
      }
    case EInvalidate(client) =>
      SameAsked(l, Invalidate(l, client), fails);
      SameHistory(l, Invalidate(l, client), fails);
    case EClose =>
      var l1 := l.(closed := true);
      SameAsked(l, l1, fails);
      SameHistory(l, l1, fails);
      GrantHistory(l1, fails);
      SameAsked(Grant(l1, fails), Close(l, fails), fails);
      SameHistory(Grant(l1, fails), Close(l, fails), fails);
  }

  lemma ArrivedAsked(l: Lane, w: Waiter, fails: WaiterId -> bool)
    requires History(l, fails) && w.id == l.nextWaiter
    ensures AskedOk(Arrived(l, w)) && w.id !in l.asked
  {
  }

  lemma SameAsked(l: Lane, l': Lane, fails: WaiterId -> bool)
    requires History(l, fails) && l'.asked == l.asked && l'.nextWaiter == l.nextWaiter && l'.answered == l.answered
    requires l'.waiters == l.waiters
    requires forall id <- l'.live :: id in l.live && l'.live[id] == l.live[id]
    ensures AskedOk(l')
  {
  }

  lemma {:induction false} WithoutIn(waiters: seq<Waiter>, id: WaiterId)
    ensures forall w <- Without(waiters, id) :: w in waiters
  {
    if waiters != [] { WithoutIn(waiters[1..], id); }
  }

  lemma WithoutAsked(l: Lane, id: WaiterId, fails: WaiterId -> bool)
    requires History(l, fails)
    ensures AskedOk(l.(waiters := Without(l.waiters, id), removed := l.removed + {id}))
  {
    WithoutIn(l.waiters, id);
  }

  /** The lane before the grants of a release. */
  function Returned(l: Lane, id: WaiterId): Lane {
    var active: nat := if l.active > 0 then l.active - 1 else 0;
    var current :=
      if active == 0 && l.current.Some? then
        (if l.closed then None else Some(l.current.value.(exclusive := false)))
      else l.current;
    l.(live := l.live - {id}, active := active, current := current)
  }

  lemma ReleaseHistory(l: Lane, id: WaiterId, fails: WaiterId -> bool)
    requires History(l, fails)
    ensures History(Release(l, id, fails), fails)
  {
    hide Grant, History, AskedOk;
    if id in l.live {
      SameAsked(l, Returned(l, id), fails);
      SameHistory(l, Returned(l, id), fails);
      GrantHistory(Returned(l, id), fails);
    }
  }

  lemma {:induction false} RunHistory(events: seq<Event>, fails: WaiterId -> bool)
    ensures History(Run(events, fails), fails)
  {
    hide History, Step;
    if events == [] {
      NewHistory(fails);
    } else {
      RunHistory(events[..|events| - 1], fails);
      StepHistory(Run(events[..|events| - 1], fails), events[|events| - 1], fails);
    }
  }

  lemma NewHistory(fails: WaiterId -> bool)
    ensures History(NewLane, fails)
  {
  }

  // ---------------------------------------------------------------------------------------------------------
  // What follows in every reachable state
  // ---------------------------------------------------------------------------------------------------------

  /**
   Two waiters that were ever granted the same client asked with the same username, password, role and location, and
   the later one did not ask to be alone; and later waiters are never granted earlier clients.
  */
  lemma ClientsKeepTheirContext(events: seq<Event>, fails: WaiterId -> bool, l: Lane, m: nat, n: nat)
    requires l == Run(events, fails) && m < n < |l.answered|
    requires l.answered[m].result.Granted? && l.answered[n].result.Granted?
    ensures l.answered[m].result.client <= l.answered[n].result.client
    ensures l.answered[m].id in l.asked && l.answered[n].id in l.asked
    ensures l.answered[m].result == l.answered[n].result ==>
              var a, b := l.asked[l.answered[m].id], l.asked[l.answered[n].id];
              && a.auth.username == b.auth.username && a.auth.password == b.auth.password
              && a.auth.role == b.auth.role && a.auth.location == b.auth.location
              && !b.exclusive
  {
    RunHistory(events, fails);
    assert PairOk(l, m, n);
  }

  /** Nobody is refused without a reason, and what somebody holds is what they asked for. */
  lemma AnswersAreDeserved(events: seq<Event>, fails: WaiterId -> bool, l: Lane, a: Answer, id: WaiterId)
    requires l == Run(events, fails)
    ensures a in l.answered && a.result == ClosedError ==> l.closed
    ensures a in l.answered && a.result == ClientError ==> fails(a.id)
    ensures id in l.live ==>
      id in l.asked && l.live[id].auth == l.asked[id].auth && l.live[id].exclusive == l.asked[id].exclusive
  {
    RunHistory(events, fails);
    if a in l.answered {
      var n :| 0 <= n < |l.answered| && l.answered[n] == a;
      assert AnswerOk(l, fails, n);
    }
  }

  /** Granting adds answers. */
  lemma {:induction false} GrantAnswers(l: Lane, fails: WaiterId -> bool)
    ensures l.answered <= Grant(l, fails).answered
    ensures forall id <- l.live | id !in Waiting(l) ::
              id in Grant(l, fails).live && Grant(l, fails).live[id] == l.live[id]
    ensures Waiting(Grant(l, fails)) <= Waiting(l)
    decreases |l.waiters|, 1
  {
    if l.waiters != [] {
      HeadWaits(l);
      if l.closed {
        GrantAnswers(Pop(l, ClosedError), fails);
      } else if l.active == 0 {
        var o := Open(l, fails);
        if o.active == 0 {
          GrantAnswers(o, fails);
        } else if !l.waiters[0].exclusive {
          ShareAnswers(o, fails);
        }
      } else {
        ShareAnswers(l, fails);
      }
    }
  }

  lemma {:induction false} ShareAnswers(l: Lane, fails: WaiterId -> bool)
    ensures l.answered <= Share(l, fails).answered
    ensures forall id <- l.live | id !in Waiting(l) ::
              id in Share(l, fails).live && Share(l, fails).live[id] == l.live[id]
    ensures Waiting(Share(l, fails)) <= Waiting(l)
    decreases |l.waiters|, 0
  {
    if !(l.waiters == [] || l.current.None? || l.current.value.exclusive || !Shares(l, l.waiters[0])) {
      HeadWaits(l);
      GrantAnswers(Pop(l.(active := l.active + 1), Granted(l.current.value.client)), fails);
    }
  }

  function Waiting(l: Lane): set<WaiterId> { set w <- l.waiters :: w.id }

  lemma HeadWaits(l: Lane)
    requires l.waiters != []
    ensures l.waiters[0].id in Waiting(l)
    ensures forall l1: Lane | l1.waiters == l.waiters[1..] :: Waiting(l1) <= Waiting(l)
  {
    assert l.waiters[0] in l.waiters;
  }

  /**
   Who is served first in an idle open lane: a shared waiter in the context of the kept client gets that client; anyone
   else gets a client nobody had before, or the error of making it.
  */
  lemma HeadIsServed(l: Lane, fails: WaiterId -> bool)
    requires History(l, fails) && l.waiters != [] && !l.closed && l.active == 0
    ensures var w, l' := l.waiters[0], Grant(l, fails);
            && |l.answered| < |l'.answered| && l'.answered[|l.answered|].id == w.id
            && l.answered <= l'.answered
            && var r := l'.answered[|l.answered|].result;
               if l.current.Some? && !w.exclusive && SameContext(l.current.value.auth, w.auth) then
                 r == Granted(l.current.value.client)
               else if fails(w.id) then r == ClientError
               else r.Granted? && forall a <- l.answered :: a.result != r
  {
    var o := Open(l, fails);
    forall a <- l.answered ensures a.result != Granted(l.nextClient) {
      var n :| 0 <= n < |l.answered| && l.answered[n] == a;
      assert AnswerOk(l, fails, n);
    }
    hide History;
    assert o.answered[|l.answered|].id == l.waiters[0].id;
    if o.active == 0 { GrantAnswers(o, fails); } else { ShareAnswers(o, fails); }
  }

  /** Who asks an idle open lane is answered at once. */
  lemma IdleLaneAnswers(events: seq<Event>, fails: WaiterId -> bool, l: Lane, auth: Auth, exclusive: bool)
    requires l == Run(events, fails) && !l.closed && l.live == map[]
    ensures var (l', id) := Acquire(l, auth, exclusive, fails);
            && id == Some(l.nextWaiter)
            && |l'.answered| == |l.answered| + 1 && l'.answered[|l.answered|].id == l.nextWaiter
            && l'.waiters == []
            && var r := l'.answered[|l.answered|].result;
               if l.current.Some? && !exclusive && SameContext(l.current.value.auth, auth) then
                 r == Granted(l.current.value.client)
               else if fails(l.nextWaiter) then r == ClientError
               else r.Granted? && forall a <- l.answered :: a.result != r
  {
    RunKeeps(events, fails);
    RunHistory(events, fails);
    var w := Waiter(l.nextWaiter, auth, exclusive);
    ArrivedAsked(l, w, fails);
    SameHistory(l, Arrived(l, w), fails);
    HeadIsServed(Arrived(l, w), fails);
  }

  /** When the last lease is given back, the next in line is served, with the kept client if it fits. */
  lemma LastReleaseServes(events: seq<Event>, fails: WaiterId -> bool, l: Lane, id: WaiterId)
    requires l == Run(events, fails) && !l.closed && l.live.Keys == {id} && l.waiters != []
    ensures var w, l' := l.waiters[0], Release(l, id, fails);
            && |l.answered| < |l'.answered| && l'.answered[|l.answered|].id == w.id
            && var r := l'.answered[|l.answered|].result;
               if l.current.Some? && !w.exclusive && SameContext(l.current.value.auth, w.auth) then
                 r == Granted(l.current.value.client)
               else if fails(w.id) then r == ClientError
               else r.Granted? && forall a <- l.answered :: a.result != r
  {
    RunKeeps(events, fails);
    RunHistory(events, fails);
    assert |l.live| == |l.live.Keys|;
    hide Inv, History, Grant;
    OneLease(l, id);
    SameAsked(l, Returned(l, id), fails);
    SameHistory(l, Returned(l, id), fails);
    HeadIsServed(Returned(l, id), fails);
  }

  lemma OneLease(l: Lane, id: WaiterId)
    requires Inv(l) && l.live.Keys == {id}
    ensures l.active == 1
  {
    assert |l.live| == |l.live.Keys|;
  }

  /** A lease ends by its own release alone. */
  lemma LeasesStay(events: seq<Event>, fails: WaiterId -> bool, l: Lane, e: Event, id: WaiterId)
    requires l == Run(events, fails) && id in l.live && e != ERelease(id) && e != EGiveUp(id)
    ensures id in Step(l, e, fails).live && Step(l, e, fails).live[id] == l.live[id]
  {
    RunKeeps(events, fails);
    LiveIsNotWaiting(l);
    hide Inv, Grant, Queued;
    match e
    case EAcquire(auth, exclusive) =>
      var w := Waiter(l.nextWaiter, auth, exclusive);
      LiveIsOld(l, id);
      GrantAnswers(Arrived(l, w), fails);
    case ERelease(i) => GrantAnswers(Returned(l, i), fails);
    case EGiveUp(i) =>
      WithoutIn(l.waiters, i);
      GrantAnswers(l.(waiters := Without(l.waiters, i), removed := l.removed + {i}), fails);
      GrantAnswers(Returned(l, i), fails);
    case EInvalidate(_) =>
    case EClose => GrantAnswers(l.(closed := true), fails);
  }

  lemma LiveIsNotWaiting(l: Lane)
    requires Inv(l)
    ensures forall id <- l.live :: id !in Waiting(l)
  {
    forall id, w | id in l.live && w in l.waiters ensures w.id != id {
      assert LiveOk(l, id);
      var i :| 0 <= i < |l.answered| && l.answered[i].id == id;
      var j :| 0 <= j < |l.waiters| && l.waiters[j] == w;
      AnsweredFirst(l, i, j);
    }
  }

  lemma LiveIsOld(l: Lane, id: WaiterId)
    requires Inv(l) && id in l.live
    ensures id < l.nextWaiter
  {
    assert LiveOk(l, id);
    var i :| 0 <= i < |l.answered| && l.answered[i].id == id;
    assert Ids(l)[i] in Ids(l);
  }
}
