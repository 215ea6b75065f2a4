/** The lane object: its methods update the fields under one lock, so each is one atomic step. */
module SessionLanes {
  import opened Options
  import L = SessionLane

  class SessionLane {
    var current: Option<L.Epoch>
    var active: nat
    var waiters: seq<L.Waiter>
    var closed: bool
    var asked: map<L.WaiterId, L.Waiter>
    var answered: seq<L.Answer>
    var live: map<L.WaiterId, L.Lease>
    var removed: set<L.WaiterId>
    var nextWaiter: L.WaiterId
    var nextClient: L.Client

    constructor ()
      ensures State() == L.NewLane
    {
      current, active, waiters, closed := None, 0, [], false;
      asked, answered, live, removed, nextWaiter, nextClient := map[], [], map[], {}, 0, 0;
    }

    function State(): L.Lane
      reads this
    {
      L.Lane(current, active, waiters, closed, asked, answered, live, removed, nextWaiter, nextClient)
    }

    method PopLocked(result: L.Result)
      requires waiters != []
      modifies this`waiters, this`answered, this`live
      ensures State() == L.Pop(old(State()), result)
    {
      var waiter := waiters[0];
      waiters := waiters[1..];
      answered := answered + [L.Answer(waiter.id, result)];
      if result.Granted? {
        live := live[waiter.id := L.Lease(result.client, waiter.auth, waiter.exclusive)];
      }
    }

    method GrantLocked(fails: L.WaiterId -> bool)
      modifies this
      ensures State() == L.Grant(old(State()), fails)
    {
      while waiters != []
        invariant L.Grant(State(), fails) == L.Grant(old(State()), fails)
        decreases |waiters|
      {
        if closed {
          PopLocked(L.ClosedError);
          continue;
        }
        if active == 0 {
          var waiter := waiters[0];
          var client;
          if current.Some? && !waiter.exclusive && L.SameContext(current.value.auth, waiter.auth) {
            client := current.value.client;
          } else {
            if fails(waiter.id) {
              PopLocked(L.ClientError);
              continue;
            }
            client := nextClient;
            nextClient := nextClient + 1;
          }
          current := Some(L.Epoch(waiter.auth, client, waiter.exclusive));
          active := 1;
          PopLocked(L.Granted(client));
          if waiter.exclusive { return; }
        }
        if waiters == [] { return; }
        if current.None? || current.value.exclusive { return; }
        var waiter := waiters[0];
        if waiter.exclusive || !L.SameContext(current.value.auth, waiter.auth) { return; }
        active := active + 1;
        PopLocked(L.Granted(current.value.client));
      }
    }

    method Acquire(auth: L.Auth, exclusive: bool, fails: L.WaiterId -> bool) returns (id: Option<L.WaiterId>)
      modifies this
      ensures (State(), id) == L.Acquire(old(State()), auth, exclusive, fails)
    {
      if closed { return None; }
      id := Some(nextWaiter);
      var waiter := L.Waiter(nextWaiter, auth, exclusive);
      waiters := waiters + [waiter];
      asked := asked[waiter.id := waiter];
      nextWaiter := nextWaiter + 1;
      GrantLocked(fails);
    }

    method Find(target: L.WaiterId) returns (index: nat)
      ensures index <= |waiters| && (index < |waiters| <==> L.Queued(State(), target))
      ensures index < |waiters| ==> L.Without(waiters, target) == waiters[..index] + waiters[index + 1..]
    {
      index := 0;
      while index < |waiters|
        invariant index <= |waiters| && forall k: nat | k < index :: waiters[k].id != target
      {
        if waiters[index].id == target {
          WithoutFirst(waiters, index, target);
          return;
        }
        index := index + 1;
      }
    }

    method Cancel(target: L.WaiterId, fails: L.WaiterId -> bool) returns (found: bool)
      modifies this
      ensures (State(), found) == L.Cancel(old(State()), target, fails)
    {
      hide L.Grant, L.Without, L.Queued;
      var index := Find(target);
      if index == |waiters| { return false; }
      waiters := waiters[..index] + waiters[index + 1..];
      removed := removed + {target};
      GrantLocked(fails);
      return true;
    }

    method Release(id: L.WaiterId, fails: L.WaiterId -> bool)
      modifies this
      ensures State() == L.Release(old(State()), id, fails)
    {
      if id !in live { return; }
      live := live - {id};
      if active > 0 { active := active - 1; }
      if active == 0 && current.Some? {
        current := Some(current.value.(exclusive := false));
        if closed { current := None; }
      }
      GrantLocked(fails);
    }

    method Invalidate(client: L.Client)
      modifies this`current
      ensures State() == L.Invalidate(old(State()), client)
    {
      if current.Some? && current.value.client == client { current := None; }
    }

    method Close(fails: L.WaiterId -> bool)
      modifies this
      ensures State() == L.Close(old(State()), fails)
    {
      closed := true;
      GrantLocked(fails);
      if active == 0 && current.Some? { current := None; }
    }
  }
  /** Without takes out the first waiter with the id. */
  lemma {:induction false} WithoutFirst(waiters: seq<L.Waiter>, index: nat, id: L.WaiterId)
    requires index < |waiters| && waiters[index].id == id && forall k: nat | k < index :: waiters[k].id != id
    ensures L.Without(waiters, id) == waiters[..index] + waiters[index + 1..]
  {
    if index > 0 {
      WithoutFirst(waiters[1..], index - 1, id);
      assert [waiters[0]] + waiters[1..][..index - 1] == waiters[..index];
    }
  }
}
