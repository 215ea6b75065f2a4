/**
 The maintenance events of the ingestion runs keep the invariant: heartbeats, recoveries, cancellations and the
 reconciliation of Run All parents.
*/
module RunSteps {
  import opened Options
  import opened Runs
  import opened RunInvariants

  // ---------------------------------------------------------------------------------------------------------
  // Updates of single rows
  // ---------------------------------------------------------------------------------------------------------

  lemma RowKeeps(catalog: Catalog, s: System, id: RunId, r: Run)
    requires Inv(catalog, s) && id in s.runs && QuietRow(id, s.runs[id], r)
    requires SameClaims(catalog, s.runs, s.runs[id := r], id)
    ensures Inv(catalog, s.(runs := s.runs[id := r]))
  {
    hide Inv;
    QuietUpdate(s.runs, id, r);
    forall k | k in s.runs ensures SameClaims(catalog, s.runs, s.runs[id := r], k) {
      if k != id { Untouched(catalog, s, k); }
    }
    QuietKeeps(catalog, s, s.runs[id := r]);
  }

  lemma Untouched(catalog: Catalog, s: System, id: RunId)
    requires Inv(catalog, s) && id in s.runs
    ensures IsExecutable(id) ==> s.runs[id].status != Completed && s.runs[id].status != CompletedWithSkips
    ensures RunOk(s, id)
    ensures id.Parent? ==> ParentOk(s.runs, id.number)
  {
    assert RunOk(s, id);
  }

  lemma HeartbeatKeeps(catalog: Catalog, s: System, id: RunId, owner: Owner, now: Time)
    requires Inv(catalog, s)
    ensures Inv(catalog, s.(runs := Heartbeat(s.runs, id, owner, now)))
  {
    hide Inv;
    if Heartbeat(s.runs, id, owner, now) != s.runs {
      Untouched(catalog, s, id);
      RowKeeps(catalog, s, id, s.runs[id].(heartbeat := Some(now)));
    } else {
      assert s.(runs := s.runs) == s;
    }
  }

  lemma AbandonKeeps(catalog: Catalog, s: System, id: RunId)
    requires Inv(catalog, s) && id in s.runs && s.runs[id].status == Running
    ensures Inv(catalog, s.(runs := s.runs[id := s.runs[id].(status := Abandoned)]))
  {
    RowKeeps(catalog, s, id, s.runs[id].(status := Abandoned));
  }

  lemma RecoverAbandonedKeeps(catalog: Catalog, s: System, id: RunId, owner: Owner, heartbeat: Time)
    requires Inv(catalog, s)
    ensures Inv(catalog, s.(runs := RecoverAbandoned(s.runs, id, owner, heartbeat)))
  {
    hide Inv;
    if RecoverAbandoned(s.runs, id, owner, heartbeat) == s.runs {
      assert s.(runs := s.runs) == s;
    } else {
      AbandonKeeps(catalog, s, id);
    }
  }

  /** The self-healing insertion of missing children finds none to insert. */
  lemma NothingToEnsure(catalog: Catalog, runs: RunTable, number: nat)
    requires ParentsOk(catalog, runs) && Parent(number) in runs
    ensures Canonical(catalog, runs, number) && Ensured(catalog, runs, number) == runs
  {
    forall id | id in runs && id.Child? && id.number == number
      ensures 1 <= id.position <= |catalog.jobs| && catalog.jobs[id.position - 1] == runs[id].job
    {
      assert id == Child(number, id.position) && ChildOk(catalog, runs, number, id.position);
    }
    forall id | id in PlannedChildren(catalog, number) ensures id in runs {
      assert id == Child(number, id.position) && ChildOk(catalog, runs, number, id.position);
    }
  }

  lemma RecoverStaleKeeps(catalog: Catalog, s: System, id: RunId, lease: nat, now: Time, owner: Owner)
    requires Inv(catalog, s)
    ensures Inv(catalog, s.(runs := RecoverStale(catalog, s.runs, id, lease, now, owner)))
  {
    hide Inv, Ensured, Canonical;
    if id !in s.runs || !IsStale(s.runs[id], lease, now) {
      assert s.(runs := s.runs) == s;
    } else if id.Parent? {
      var r := s.runs[id].(owner := Some(owner), heartbeat := Some(now));
      RowKeeps(catalog, s, id, r);
      InvParents(catalog, s.(runs := s.runs[id := r]));
      InvParents(catalog, s);
      NothingToEnsure(catalog, s.runs, id.number);
      NothingToEnsure(catalog, s.runs[id := r], id.number);
    } else {
      AbandonKeeps(catalog, s, id);
    }
  }

  lemma InvParents(catalog: Catalog, s: System)
    requires Inv(catalog, s)
    ensures ParentsOk(catalog, s.runs) && JobsUnique(s.runs)
  {
  }

  // ---------------------------------------------------------------------------------------------------------
  // Cancellation
  // ---------------------------------------------------------------------------------------------------------

  lemma CancelledRow(catalog: Catalog, s: System, runs': RunTable, id: RunId)
    requires Inv(catalog, s) && id in s.runs && id in runs' && IsExecutable(id)
    requires runs'[id] == s.runs[id] || runs'[id] == CancelRow(s.runs[id])
    ensures QuietRow(id, s.runs[id], runs'[id]) && SameClaims(catalog, s.runs, runs', id)
  {
    Untouched(catalog, s, id);
  }

  function CancelChildren(runs: RunTable, number: nat): RunTable {
    map k | k in runs :: if k.Child? && k.number == number then CancelRow(runs[k]) else runs[k]
  }

  lemma CancelChildrenKeeps(catalog: Catalog, s: System, number: nat)
    requires Inv(catalog, s)
    ensures Inv(catalog, s.(runs := CancelChildren(s.runs, number)))
  {
    hide Inv;
    var runs' := CancelChildren(s.runs, number);
    forall id | id in s.runs ensures QuietRow(id, s.runs[id], runs'[id]) && SameClaims(catalog, s.runs, runs', id) {
      if IsExecutable(id) { CancelledRow(catalog, s, runs', id); }
    }
    QuietKeeps(catalog, s, runs');
  }

  /** Marking a parent as to be cancelled, once none of its children waits. */
  lemma MarkParentKeeps(catalog: Catalog, s: System, number: nat)
    requires Inv(catalog, s) && Parent(number) in s.runs
    requires forall k: nat | Child(number, k) in s.runs ::
               s.runs[Child(number, k)].status != Planned && s.runs[Child(number, k)].status != Queued
    ensures Inv(catalog, s.(runs := s.runs[Parent(number) := s.runs[Parent(number)].(cancel := true)]))
  {
    var id := Parent(number);
    assert ParentOk(s.runs, number);
    OtherAggregate(s.runs, s.runs[id := s.runs[id].(cancel := true)], number);
    ParentRowKeeps(catalog, s, number, s.runs[id].(cancel := true));
  }

  /** A new row for a parent: its children, and every executable run, are as before. */
  lemma ParentRowKeeps(catalog: Catalog, s: System, number: nat, r: Run)
    requires Inv(catalog, s) && Parent(number) in s.runs
    requires ParentOk(s.runs[Parent(number) := r], number)
    ensures Inv(catalog, s.(runs := s.runs[Parent(number) := r]))
  {
    var id := Parent(number);
    var s' := s.(runs := s.runs[id := r]);
    ParentRowKeepsParents(catalog, s.runs, number, r);
    forall i, j | i in s'.runs && j in s'.runs ensures SameJob(s'.runs, i, j) { assert SameJob(s.runs, i, j); }
    forall k | k in s'.runs ensures RunOk(s', k) && NumberOk(s'.runs, s'.nextRun, k) {
      assert RunOk(s, k) && NumberOk(s.runs, s.nextRun, k);
    }
    forall o | o in s'.executors ensures ExecutorOk(catalog, s', o) { assert ExecutorOk(catalog, s, o); }
    forall k ensures PublishedOk(catalog, s', k) { assert PublishedOk(catalog, s, k); }
  }

  lemma ParentRowKeepsParents(catalog: Catalog, runs: RunTable, number: nat, r: Run)
    requires ParentsOk(catalog, runs) && Parent(number) in runs && ParentOk(runs[Parent(number) := r], number)
    ensures ParentsOk(catalog, runs[Parent(number) := r])
  {
    hide Aggregate;
    var runs' := runs[Parent(number) := r];
    forall n: nat, k: nat ensures ChildOk(catalog, runs', n, k) { assert ChildOk(catalog, runs, n, k); }
    forall n: nat, j: nat, k: nat ensures OrderOk(runs', n, j, k) { assert OrderOk(runs, n, j, k); }
    forall n: nat | Parent(n) in runs' ensures ParentOk(runs', n) {
      if n != number {
        assert ParentOk(runs, n);
        OtherAggregate(runs, runs', n);
      }
    }
  }

  lemma OtherAggregate(runs: RunTable, runs': RunTable, n: nat)
    requires runs.Keys == runs'.Keys && forall id | id in runs && id.Child? :: runs'[id] == runs[id]
    ensures Aggregate(runs', n) == Aggregate(runs, n) && AllTerminal(runs', n) == AllTerminal(runs, n)
  {
    assert forall statuses :: SomeChild(runs', n, statuses) == SomeChild(runs, n, statuses);
  }

  lemma RequestCancellationKeeps(catalog: Catalog, s: System, id: RunId)
    requires Inv(catalog, s)
    ensures Inv(catalog, s.(runs := RequestCancellation(s.runs, id)))
  {
    hide Inv;
    if id !in s.runs || IsTerminal(s.runs[id].status) {
      assert s.(runs := s.runs) == s;
    } else if id.Parent? {
      var mid := CancelChildren(s.runs, id.number);
      CancelChildrenKeeps(catalog, s, id.number);
      MarkParentKeeps(catalog, s.(runs := mid), id.number);
      assert RequestCancellation(s.runs, id) == mid[id := mid[id].(cancel := true)];
    } else {
      CancelledRow(catalog, s, s.runs[id := CancelRow(s.runs[id])], id);
      RowKeeps(catalog, s, id, CancelRow(s.runs[id]));
    }
  }

  // ---------------------------------------------------------------------------------------------------------
  // Reconciliation
  // ---------------------------------------------------------------------------------------------------------

  lemma {:induction false} FirstPlannedIsLowest(runs: RunTable, number: nat, k: nat, last: nat)
    ensures match FirstPlanned(runs, number, k, last)
            case None => forall j | k <= j <= last :: !IsPlanned(runs, number, j)
            case Some(p) => k <= p <= last && IsPlanned(runs, number, p) && forall j | k <= j < p :: !IsPlanned(runs, number, j)
    decreases last + 1 - k
  {
    if k <= last && !IsPlanned(runs, number, k) { FirstPlannedIsLowest(runs, number, k + 1, last); }
  }

  lemma NoActiveChild(runs: RunTable, number: nat)
    requires !HasActiveChild(runs, number)
    ensures forall k: nat {:trigger Child(number, k)} | Child(number, k) in runs ::
              !IsActive(runs[Child(number, k)].status)
  {
    forall k: nat | Child(number, k) in runs ensures !IsActive(runs[Child(number, k)].status) {
      var id := Child(number, k);
      assert id.Child? && id.number == number;
    }
  }

  lemma SettleKeeps(catalog: Catalog, s: System, number: nat, status: Status)
    requires Inv(catalog, s) && Parent(number) in s.runs && !HasActiveChild(s.runs, number)
    requires status == Cancelled || status == Aggregate(s.runs, number)
    requires AllTerminal(s.runs, number)
    ensures Inv(catalog, s.(runs := WithStatus(s.runs, Parent(number), status)))
  {
    hide Inv, Aggregate;
    AggregateStatus(s.runs, number);
    OtherAggregate(s.runs, WithStatus(s.runs, Parent(number), status), number);
    ParentRowKeeps(catalog, s, number, s.runs[Parent(number)].(status := status));
  }

  lemma AggregateStatus(runs: RunTable, number: nat)
    ensures Aggregate(runs, number) in {Failed, CompletedWithSkips, Completed}
  {
  }

  lemma QueueKeepsParents(catalog: Catalog, runs: RunTable, number: nat, k: nat)
    requires ParentsOk(catalog, runs) && Parent(number) in runs && runs[Parent(number)].status == Running
    requires !runs[Parent(number)].cancel && !HasActiveChild(runs, number)
    requires FirstPlanned(runs, number, 1, |catalog.jobs|) == Some(k)
    ensures Child(number, k) in runs && ParentsOk(catalog, WithStatus(runs, Child(number, k), Queued))
  {
    hide Aggregate, FirstPlanned;
    FirstPlannedIsLowest(runs, number, 1, |catalog.jobs|);
    NoActiveChild(runs, number);
    var id := Child(number, k);
    assert IsPlanned(runs, number, k);
    var runs' := WithStatus(runs, id, Queued);
    forall n: nat, j: nat ensures ChildOk(catalog, runs', n, j) { assert ChildOk(catalog, runs, n, j); }
    forall n: nat, j: nat, i: nat ensures OrderOk(runs', n, j, i) {
      assert OrderOk(runs, n, j, i) && ChildOk(catalog, runs, n, j);
      if n == number && i == k && j < k && Child(n, j) in runs { assert !IsPlanned(runs, n, j); }
    }
    forall n: nat | Parent(n) in runs' ensures ParentOk(runs', n) {
      assert ParentOk(runs, n);
      if n != number { OtherChildren(runs, runs', n, id); }
    }
  }

  lemma OtherChildren(runs: RunTable, runs': RunTable, n: nat, id: RunId)
    requires id in runs && id.number != n && id in runs' && runs' == runs[id := runs'[id]]
    ensures Aggregate(runs', n) == Aggregate(runs, n) && AllTerminal(runs', n) == AllTerminal(runs, n)
  {
    assert forall statuses :: SomeChild(runs', n, statuses) == SomeChild(runs, n, statuses);
  }

  lemma QueueKeepsJobs(runs: RunTable, id: RunId)
    requires JobsUnique(runs) && id in runs && !ActiveJob(runs, runs[id].job)
    ensures JobsUnique(WithStatus(runs, id, Queued))
  {
    var runs' := WithStatus(runs, id, Queued);
    forall i, j | i in runs' && j in runs' ensures SameJob(runs', i, j) { assert SameJob(runs, i, j); }
  }

  lemma QueueKeeps(catalog: Catalog, s: System, number: nat, k: nat)
    requires Inv(catalog, s) && Parent(number) in s.runs && s.runs[Parent(number)].status == Running
    requires !s.runs[Parent(number)].cancel && !HasActiveChild(s.runs, number)
    requires FirstPlanned(s.runs, number, 1, |catalog.jobs|) == Some(k)
    requires Child(number, k) in s.runs && !ActiveJob(s.runs, s.runs[Child(number, k)].job)
    ensures Inv(catalog, s.(runs := WithStatus(s.runs, Child(number, k), Queued)))
  {
    hide ParentsOk, JobsUnique, FirstPlanned;
    var id := Child(number, k);
    var s' := s.(runs := WithStatus(s.runs, id, Queued));
    QueueKeepsParents(catalog, s.runs, number, k);
    QueueKeepsJobs(s.runs, id);
    FirstPlannedIsLowest(s.runs, number, 1, |catalog.jobs|);
    assert IsPlanned(s.runs, number, k) && RunOk(s, id);
    forall i | i in s'.runs ensures RunOk(s', i) && NumberOk(s'.runs, s'.nextRun, i) {
      assert RunOk(s, i) && NumberOk(s.runs, s.nextRun, i);
    }
    forall o | o in s'.executors ensures ExecutorOk(catalog, s', o) { assert ExecutorOk(catalog, s, o); }
    forall i ensures PublishedOk(catalog, s', i) { assert PublishedOk(catalog, s, i); }
  }

  lemma ChildrenTerminal(catalog: Catalog, s: System, number: nat)
    requires Inv(catalog, s) && Parent(number) in s.runs && s.runs[Parent(number)].status == Running
    requires !HasActiveChild(s.runs, number)
    requires s.runs[Parent(number)].cancel || FirstPlanned(s.runs, number, 1, |catalog.jobs|) == None
    ensures AllTerminal(s.runs, number)
  {
    hide Aggregate, FirstPlanned, JobsUnique;
    FirstPlannedIsLowest(s.runs, number, 1, |catalog.jobs|);
    NoActiveChild(s.runs, number);
    assert ParentOk(s.runs, number);
    forall k: nat | Child(number, k) in s.runs ensures IsTerminal(s.runs[Child(number, k)].status) {
      assert ChildOk(catalog, s.runs, number, k);
      assert FirstPlanned(s.runs, number, 1, |catalog.jobs|) == None ==> !IsPlanned(s.runs, number, k);
    }
  }

  lemma AdvanceKeeps(catalog: Catalog, s: System, number: nat, enabled: set<string>)
    requires Inv(catalog, s) && Parent(number) in s.runs && s.runs[Parent(number)].status == Running
    requires !HasActiveChild(s.runs, number)
    ensures Inv(catalog, s.(runs := Advance(catalog, s.runs, number, enabled)))
  {
    hide Inv, Aggregate, FirstPlanned;
    if s.runs[Parent(number)].cancel {
      ChildrenTerminal(catalog, s, number);
      SettleKeeps(catalog, s, number, Cancelled);
    } else {
      var next := FirstPlanned(s.runs, number, 1, |catalog.jobs|);
      if next.None? {
        ChildrenTerminal(catalog, s, number);
        SettleKeeps(catalog, s, number, Aggregate(s.runs, number));
      } else {
        var child := Child(number, next.value);
        FirstPlannedIsLowest(s.runs, number, 1, |catalog.jobs|);
        assert IsPlanned(s.runs, number, next.value);
        Untouched(catalog, s, child);
        if s.runs[child].job !in enabled || ActiveJob(s.runs, s.runs[child].job) {
          RowKeeps(catalog, s, child, s.runs[child].(status := Skipped));
        } else {
          QueueKeeps(catalog, s, number, next.value);
        }
      }
    }
  }

  lemma ReconcileKeeps(catalog: Catalog, s: System, number: nat, exact: Option<Owner>, enabled: set<string>, now: Time)
    requires Inv(catalog, s)
    ensures Inv(catalog, s.(runs := Reconcile(catalog, s.runs, number, exact, enabled, now).0))
  {
    hide Inv, Advance;
    var id := Parent(number);
    assert s.(runs := s.runs) == s;
    if id in s.runs && s.runs[id].status == Running {
      var seen := s.runs[id := s.runs[id].(heartbeat := Some(now))];
      RowKeeps(catalog, s, id, s.runs[id].(heartbeat := Some(now)));
      if !HasActiveChild(seen, number) { AdvanceKeeps(catalog, s.(runs := seen), number, enabled); }
    }
  }
}
