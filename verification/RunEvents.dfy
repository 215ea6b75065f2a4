/**
 Every remaining event of the ingestion runs keeps the invariant: submissions, Run All creation, claims, and what an
 executor does between its claim and its last Finish.
*/
module RunEvents {
  import opened Options
  import opened Runs
  import opened RunInvariants
  import opened RunSteps

  // ---------------------------------------------------------------------------------------------------------
  // New runs
  // ---------------------------------------------------------------------------------------------------------

  lemma FreshNumber(catalog: Catalog, s: System, id: RunId)
    requires Inv(catalog, s) && id.number >= s.nextRun
    ensures id !in s.runs
  {
    assert id in s.runs ==> NumberOk(s.runs, s.nextRun, id);
  }

  lemma SubmitKeeps(catalog: Catalog, s: System, job: string)
    requires Inv(catalog, s)
    ensures Inv(catalog, Step(catalog, s, ESubmit(job)))
  {
    var id, s' := Job(s.nextRun), Step(catalog, s, ESubmit(job));
    FreshNumber(catalog, s, id);
    forall n: nat, k: nat ensures ChildOk(catalog, s'.runs, n, k) { assert ChildOk(catalog, s.runs, n, k); }
    forall n: nat, j: nat, k: nat ensures OrderOk(s'.runs, n, j, k) { assert OrderOk(s.runs, n, j, k); }
    forall n: nat | Parent(n) in s'.runs ensures ParentOk(s'.runs, n) {
      assert ParentOk(s.runs, n);
      SameChildren(s.runs, s'.runs, n);
    }
    forall i, j | i in s'.runs && j in s'.runs ensures SameJob(s'.runs, i, j) {
      assert i in s.runs && j in s.runs ==> SameJob(s.runs, i, j);
    }
    NewRunsKeep(catalog, s, s');
  }

  lemma SameChildren(runs: RunTable, runs': RunTable, n: nat)
    requires forall id: RunId | id.Child? && id.number == n :: (id in runs' <==> id in runs)
    requires forall id | id in runs && id.Child? && id.number == n :: runs'[id] == runs[id]
    ensures Aggregate(runs', n) == Aggregate(runs, n) && AllTerminal(runs', n) == AllTerminal(runs, n)
  {
    assert forall statuses :: SomeChild(runs', n, statuses) == SomeChild(runs, n, statuses);
  }

  /** Rows of new runs, none of them claimed. */
  lemma NewRunsKeep(catalog: Catalog, s: System, s': System)
    requires Inv(catalog, s)
    requires s'.executors == s.executors && s'.published == s.published
    requires s.nextRun <= s'.nextRun && s.nextOwner <= s'.nextOwner
    requires forall id | id in s.runs :: id in s'.runs && s'.runs[id] == s.runs[id]
    requires forall id | id in s'.runs && id !in s.runs ::
               && id.number < s'.nextRun
               && (IsExecutable(id) ==>
                     s'.runs[id].owner.None? && (s'.runs[id].status == Planned || s'.runs[id].status == Queued))
    requires ParentsOk(catalog, s'.runs) && JobsUnique(s'.runs)
    ensures Inv(catalog, s')
  {
    hide ParentsOk, JobsUnique;
    forall k | k in s'.runs ensures RunOk(s', k) && NumberOk(s'.runs, s'.nextRun, k) {
      if k in s.runs { assert RunOk(s, k) && NumberOk(s.runs, s.nextRun, k); }
    }
    forall o | o in s'.executors ensures ExecutorOk(catalog, s', o) { assert ExecutorOk(catalog, s, o); }
    forall k ensures PublishedOk(catalog, s', k) { assert PublishedOk(catalog, s, k); }
  }

  lemma CreateRunAllKeeps(catalog: Catalog, s: System, now: Time)
    requires Inv(catalog, s)
    ensures Inv(catalog, Step(catalog, s, ECreateRunAll(now)))
  {
    var s' := Step(catalog, s, ECreateRunAll(now));
    CreatedParents(catalog, s, s', now);
    forall i, j | i in s'.runs && j in s'.runs ensures SameJob(s'.runs, i, j) {
      assert i in s.runs && j in s.runs ==> SameJob(s.runs, i, j);
    }
    forall id | id in s.runs ensures id.number < s.nextRun { assert NumberOk(s.runs, s.nextRun, id); }
    NewRunsKeep(catalog, s, s');
  }

  lemma CreatedParents(catalog: Catalog, s: System, s': System, now: Time)
    requires Inv(catalog, s) && s' == Step(catalog, s, ECreateRunAll(now))
    ensures ParentsOk(catalog, s'.runs)
  {
    var n0 := s.nextRun;
    forall id: RunId | id.number >= n0 ensures id !in s.runs { FreshNumber(catalog, s, id); }
    forall n: nat, k: nat ensures ChildOk(catalog, s'.runs, n, k) {
      assert ChildOk(catalog, s.runs, n, k);
      assert Child(n, k) in ChildIds(catalog, n0) <==> n == n0 && 1 <= k <= |catalog.jobs|;
    }
    forall n: nat, j: nat, k: nat ensures OrderOk(s'.runs, n, j, k) {
      assert OrderOk(s.runs, n, j, k);
      if n == n0 && Child(n, k) in s'.runs { assert s'.runs[Child(n, k)].status == Planned; }
    }
    forall n: nat | Parent(n) in s'.runs ensures ParentOk(s'.runs, n) {
      if n != n0 {
        assert ParentOk(s.runs, n);
        SameChildren(s.runs, s'.runs, n);
      }
    }
  }

  // ---------------------------------------------------------------------------------------------------------
  // Claims and executors
  // ---------------------------------------------------------------------------------------------------------

  lemma ClaimKeeps(catalog: Catalog, s: System, id: RunId, limit: nat, now: Time)
    requires Inv(catalog, s)
    ensures Inv(catalog, Step(catalog, s, EClaim(id, limit, now)))
  {
    var s' := Step(catalog, s, EClaim(id, limit, now));
    if Claimable(s.runs, id, limit) {
      hide ParentsOk, JobsUnique;
      assert RunOk(s, id);
      QuietUpdate(s.runs, id, s'.runs[id]);
      QuietKeepsParents(catalog, s.runs, s'.runs);
      QuietKeepsJobs(s.runs, s'.runs);
      forall k | k in s'.runs ensures RunOk(s', k) && NumberOk(s'.runs, s'.nextRun, k) {
        assert RunOk(s, k) && NumberOk(s.runs, s.nextRun, k);
        if k != id && IsExecutable(k) && s.runs[k].owner.Some? { assert ExecutorOk(catalog, s, s.runs[k].owner.value); }
      }
      forall o | o in s'.executors ensures ExecutorOk(catalog, s', o) {
        if o != s.nextOwner { assert ExecutorOk(catalog, s, o); }
      }
      forall k ensures PublishedOk(catalog, s', k) { assert PublishedOk(catalog, s, k); }
    }
  }

  /** The terminal statement of an executor that does not publish. */
  lemma FinishKeeps(catalog: Catalog, s: System, owner: Owner, status: Status)
    requires Inv(catalog, s) && owner in s.executors && s.executors[owner].run in s.runs
    requires status == Succeeded && s.runs[s.executors[owner].run].job in catalog.publishing ==>
               s.runs[s.executors[owner].run].status == Succeeded
    ensures Inv(catalog, s.(runs := Finish(s.runs, s.executors[owner].run, owner, status).0))
  {
    hide ParentsOk, JobsUnique;
    var id := s.executors[owner].run;
    var (runs', ok) := Finish(s.runs, id, owner, status);
    var s' := s.(runs := runs');
    assert ExecutorOk(catalog, s, owner);
    if !ok {
      assert s' == s;
    } else {
      QuietUpdate(s.runs, id, runs'[id]);
      QuietKeepsParents(catalog, s.runs, runs');
      QuietKeepsJobs(s.runs, runs');
      forall k | k in s'.runs ensures RunOk(s', k) && NumberOk(s'.runs, s'.nextRun, k) {
        assert RunOk(s, k) && NumberOk(s.runs, s.nextRun, k);
      }
      forall o | o in s'.executors ensures ExecutorOk(catalog, s', o) { assert ExecutorOk(catalog, s, o); }
      forall k ensures PublishedOk(catalog, s', k) { assert PublishedOk(catalog, s, k); }
    }
  }

  /** An executor's own note changes: its run must bear out what it then claims. */
  lemma NoteKeeps(catalog: Catalog, s: System, owner: Owner, x: Executor)
    requires Inv(catalog, s) && owner in s.executors && x.run == s.executors[owner].run
    requires ExecutorOk(catalog, WithExecutor(s, owner, x), owner)
    ensures Inv(catalog, WithExecutor(s, owner, x))
  {
    hide ParentsOk, JobsUnique;
    var s' := WithExecutor(s, owner, x);
    forall k | k in s'.runs ensures RunOk(s', k) && NumberOk(s'.runs, s'.nextRun, k) {
      assert RunOk(s, k) && NumberOk(s.runs, s.nextRun, k);
    }
    forall o | o in s'.executors ensures ExecutorOk(catalog, s', o) {
      if o != owner { assert ExecutorOk(catalog, s, o); }
    }
    forall k ensures PublishedOk(catalog, s', k) { assert PublishedOk(catalog, s, k); }
  }

  lemma PublishKeeps(catalog: Catalog, s: System, owner: Owner, heard: bool)
    requires Inv(catalog, s) && owner in s.executors
    ensures Inv(catalog, ExecutorStep(catalog, s, EPublish(owner, heard), owner))
  {
    hide ParentsOk, JobsUnique;
    var s' := ExecutorStep(catalog, s, EPublish(owner, heard), owner);
    var id := s.executors[owner].run;
    if Publishes(catalog, s, owner) {
      assert ExecutorOk(catalog, s, owner) && RunOk(s, id);
      QuietUpdate(s.runs, id, s'.runs[id]);
      QuietKeepsParents(catalog, s.runs, s'.runs);
      QuietKeepsJobs(s.runs, s'.runs);
      forall k | k in s'.runs ensures RunOk(s', k) && NumberOk(s'.runs, s'.nextRun, k) {
        assert RunOk(s, k) && NumberOk(s.runs, s.nextRun, k);
      }
      forall o | o in s'.executors ensures ExecutorOk(catalog, s', o) { assert ExecutorOk(catalog, s, o); }
      forall k ensures PublishedOk(catalog, s', k) {
        assert PublishedOk(catalog, s, k);
        assert s'.published[..|s'.published| - 1] == s.published;
      }
    }
  }

  lemma ReturnKeeps(catalog: Catalog, s: System, owner: Owner, e: Event)
    requires Inv(catalog, s) && owner in s.executors && (e.ECheckPublished? || e.EReturn?) && e.executor == owner
    ensures Inv(catalog, ExecutorStep(catalog, s, e, owner))
  {
    var s' := ExecutorStep(catalog, s, e, owner);
    assert ExecutorOk(catalog, s, owner);
    if s' != s {
      NoteKeeps(catalog, s, owner, s'.executors[owner]);
      assert s' == WithExecutor(s, owner, s'.executors[owner]);
    }
  }

  lemma CompletionKeeps(catalog: Catalog, s: System, owner: Owner, e: Event)
    requires Inv(catalog, s) && owner in s.executors && (e.EFinish? || e.EFallBack?) && e.executor == owner
    ensures Inv(catalog, ExecutorStep(catalog, s, e, owner))
  {
    hide Inv;
    var x := s.executors[owner];
    var s' := ExecutorStep(catalog, s, e, owner);
    TrustedExecutor(catalog, s, owner);
    if s' != s {
      var status := if e.EFinish? then x.phase.status else Cancelled;
      FinishKeeps(catalog, s, owner, status);
      var mid := s.(runs := Finish(s.runs, x.run, owner, status).0);
      TrustedExecutor(catalog, mid, owner);
      if s.runs[x.run].status == Succeeded { FinishedIsFinal(s.runs, x.run, owner, status); }
      NoteKeeps(catalog, mid, owner, s'.executors[owner]);
      assert s' == WithExecutor(mid, owner, s'.executors[owner]);
    }
  }

  lemma TrustedExecutor(catalog: Catalog, s: System, owner: Owner)
    requires Inv(catalog, s) && owner in s.executors
    ensures ExecutorOk(catalog, s, owner)
  {
  }

  lemma FinishedIsFinal(runs: RunTable, id: RunId, owner: Owner, status: Status)
    requires id in runs && runs[id].status == Succeeded
    ensures Finish(runs, id, owner, status).0 == runs
  {
  }

  lemma ExecutorStepKeeps(catalog: Catalog, s: System, e: Event, owner: Owner)
    requires Inv(catalog, s) && owner in s.executors
    requires e.EPublish? || e.ECheckPublished? || e.EReturn? || e.EFinish? || e.EFallBack?
    requires e.executor == owner
    ensures Inv(catalog, ExecutorStep(catalog, s, e, owner))
  {
    hide Inv, ExecutorStep;
    match e
    case EPublish(_, heard) => PublishKeeps(catalog, s, owner, heard);
    case ECheckPublished(_) => ReturnKeeps(catalog, s, owner, e);
    case EReturn(_, _) => ReturnKeeps(catalog, s, owner, e);
    case EFinish(_, _) => CompletionKeeps(catalog, s, owner, e);
    case EFallBack(_, _) => CompletionKeeps(catalog, s, owner, e);
  }

  lemma NextOwnerKeeps(catalog: Catalog, s: System)
    requires Inv(catalog, s)
    ensures Inv(catalog, s.(nextOwner := s.nextOwner + 1))
  {
    var s' := s.(nextOwner := s.nextOwner + 1);
    forall k | k in s'.runs ensures RunOk(s', k) { assert RunOk(s, k); }
    forall o | o in s'.executors ensures ExecutorOk(catalog, s', o) { assert ExecutorOk(catalog, s, o); }
    forall k ensures PublishedOk(catalog, s', k) { assert PublishedOk(catalog, s, k); }
  }

  lemma StepKeeps(catalog: Catalog, s: System, e: Event)
    requires Inv(catalog, s)
    ensures Inv(catalog, Step(catalog, s, e))
  {
    hide Inv, ExecutorStep, RecoverStale, RecoverAbandoned, RequestCancellation, Reconcile, Heartbeat;
    match e
    case ESubmit(job) => SubmitKeeps(catalog, s, job);
    case ECreateRunAll(now) => CreateRunAllKeeps(catalog, s, now);
    case EClaim(id, limit, now) => ClaimKeeps(catalog, s, id, limit, now);
    case EHeartbeat(id, owner, now) => HeartbeatKeeps(catalog, s, id, owner, now);
    case ERecoverStale(id, lease, now) =>
      RecoverStaleKeeps(catalog, s, id, lease, now, s.nextOwner);
      NextOwnerKeeps(catalog, s.(runs := RecoverStale(catalog, s.runs, id, lease, now, s.nextOwner)));
    case ERecoverAbandoned(id, owner, heartbeat) => RecoverAbandonedKeeps(catalog, s, id, owner, heartbeat);
    case ERequestCancellation(id) => RequestCancellationKeeps(catalog, s, id);
    case EReconcile(number, exact, enabled, now) => ReconcileKeeps(catalog, s, number, exact, enabled, now);
    case _ => if e.executor in s.executors { ExecutorStepKeeps(catalog, s, e, e.executor); }
  }
}
