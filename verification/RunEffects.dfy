/** Exactly when each transaction on the ingestion runs goes through, and what it then writes. */
module RunEffects {
  import opened Options
  import opened Runs
  import opened RunInvariants
  import opened RunSteps
  import opened RunEvents
  import opened RunExecution

  // ---------------------------------------------------------------------------------------------------------
  // Driving a Run All parent
  // ---------------------------------------------------------------------------------------------------------

  /** Some executable run of the job waits or runs. */
  ghost predicate Busy(runs: RunTable, job: string) {
    exists id | id in runs :: !id.Parent? && runs[id].job == job && runs[id].status in {Queued, Running}
  }

  predicate WaitsAt(runs: RunTable, number: nat, k: nat) {
    Child(number, k) in runs && runs[Child(number, k)].status == Planned
  }

  /** The lowest planned position. */
  ghost predicate IsNext(runs: RunTable, number: nat, k: nat) {
    WaitsAt(runs, number, k) && forall j: nat | j < k :: !WaitsAt(runs, number, j)
  }

  /** The parent runs, somebody owns it, and that is who is asking if the owner is asked for. */
  predicate MayDrive(runs: RunTable, number: nat, exact: Option<Owner>) {
    && Parent(number) in runs && runs[Parent(number)].status == Running && runs[Parent(number)].owner.Some?
    && (exact.Some? ==> runs[Parent(number)].owner == exact)
  }

  ghost predicate HasBusyChild(runs: RunTable, number: nat) {
    exists k: nat :: Child(number, k) in runs && runs[Child(number, k)].status in {Queued, Running}
  }

  /** The children's sum: a failure of one is the parent's, otherwise a skip shows, otherwise all succeeded. */
  ghost predicate IsSum(runs: RunTable, number: nat, status: Status) {
    && (status == Failed <==>
          exists k: nat :: Child(number, k) in runs && runs[Child(number, k)].status in {Failed, Cancelled, Abandoned})
    && (status == Completed <==>
          forall k: nat | Child(number, k) in runs :: runs[Child(number, k)].status == Succeeded)
    && status in {Failed, CompletedWithSkips, Completed}
  }

  /**
   A driven parent without busy children moves exactly one row: its lowest planned child is queued if its job is enabled
   and nobody else runs it, and skipped otherwise; without planned children the parent ends with the sum of the
   children; and a parent to be cancelled ends cancelled. Only the parent's heartbeat moves besides.
  */
  lemma ReconcileDecides(catalog: Catalog, events: seq<Event>, runs: RunTable, number: nat, exact: Option<Owner>,
                         enabled: set<string>, now: Time)
    requires runs == Reach(catalog, events).runs && MayDrive(runs, number, exact) && !HasBusyChild(runs, number)
    ensures var (runs', r) := Reconcile(catalog, runs, number, exact, enabled, now);
            var parent, beat := Parent(number), runs[Parent(number)].(heartbeat := Some(now));
            && r == Changed
            && (runs[parent].cancel ==> runs' == runs[parent := beat.(status := Cancelled)])
            && (forall k: nat | !runs[parent].cancel && IsNext(runs, number, k) ::
                  var child := Child(number, k);
                  runs' == runs[parent := beat][child := runs[child].(status :=
                    if runs[child].job in enabled && !Busy(runs, runs[child].job) then Queued else Skipped)])
            && (!runs[parent].cancel && (forall k: nat :: !WaitsAt(runs, number, k)) ==>
                  parent in runs' && runs' == runs[parent := beat.(status := runs'[parent].status)]
                  && IsSum(runs, number, runs'[parent].status))
  {
    hide Inv, FirstPlanned, Aggregate, Reach, HasActiveChild, HasBusyChild, ActiveJob, Busy, IsNext, IsSum;
    ReachKeeps(catalog, events);
    var parent := Parent(number);
    var seen := runs[parent := runs[parent].(heartbeat := Some(now))];
    NoBusyChild(runs, seen, number);
    NextIsFirst(catalog, Reach(catalog, events), seen, number);
    forall job ensures ActiveJob(seen, job) <==> Busy(runs, job) { SameBusy(runs, seen, parent, job); }
    if forall k: nat :: !WaitsAt(runs, number, k) { SumOf(catalog, Reach(catalog, events), seen, number); }
  }

  lemma NextIsFirst(catalog: Catalog, s: System, seen: RunTable, number: nat)
    requires Inv(catalog, s) && Parent(number) in s.runs && Parent(number) in seen
    requires seen == s.runs[Parent(number) := seen[Parent(number)]]
    ensures var next := FirstPlanned(seen, number, 1, |catalog.jobs|);
            && (forall k: nat :: IsNext(s.runs, number, k) <==> next == Some(k))
            && (next.None? <==> forall k: nat :: !WaitsAt(s.runs, number, k))
            && (next.Some? ==> Child(number, next.value) in s.runs)
  {
    hide FirstPlanned, Inv;
    FirstPlannedIsLowest(seen, number, 1, |catalog.jobs|);
    Positions(catalog, s, number);
    forall k: nat ensures IsPlanned(seen, number, k) <==> WaitsAt(s.runs, number, k) {}
    var next := FirstPlanned(seen, number, 1, |catalog.jobs|);
    if next.Some? { assert IsPlanned(seen, number, next.value); }
  }

  lemma SameBusy(runs: RunTable, seen: RunTable, parent: RunId, job: string)
    requires parent.Parent? && parent in runs && parent in seen && seen == runs[parent := seen[parent]]
    ensures ActiveJob(seen, job) <==> Busy(runs, job)
  {
    if id :| id in runs && !id.Parent? && runs[id].job == job && runs[id].status in {Queued, Running} {
      assert id in seen && IsExecutable(id) && seen[id].job == job && IsActive(seen[id].status);
    }
    if id :| id in seen && IsExecutable(id) && seen[id].job == job && IsActive(seen[id].status) {
      assert id in runs && !id.Parent? && runs[id].job == job && runs[id].status in {Queued, Running};
    }
  }

  lemma NoBusyChild(runs: RunTable, seen: RunTable, number: nat)
    requires Parent(number) in runs && Parent(number) in seen && seen == runs[Parent(number) := seen[Parent(number)]]
    ensures HasActiveChild(seen, number) <==> HasBusyChild(runs, number)
    ensures HasActiveChild(runs, number) <==> HasBusyChild(runs, number)
  {
    if HasBusyChild(runs, number) {
      var k: nat :| Child(number, k) in runs && runs[Child(number, k)].status in {Queued, Running};
      var id := Child(number, k);
      assert id in seen && id.Child? && id.number == number && IsActive(seen[id].status);
    }
    forall id | id in runs && id.Child? && id.number == number && IsActive(runs[id].status)
      ensures HasBusyChild(runs, number)
    {
      assert id == Child(number, id.position);
    }
  }

  lemma Positions(catalog: Catalog, s: System, number: nat)
    requires Inv(catalog, s)
    ensures forall k: nat | Child(number, k) in s.runs ::
              1 <= k <= |catalog.jobs| && s.runs[Child(number, k)].status !in {Completed, CompletedWithSkips}
  {
    forall k: nat | Child(number, k) in s.runs
      ensures 1 <= k <= |catalog.jobs| && s.runs[Child(number, k)].status !in {Completed, CompletedWithSkips}
    {
      assert ChildOk(catalog, s.runs, number, k) && RunOk(s, Child(number, k));
    }
  }

  lemma SumOf(catalog: Catalog, s: System, seen: RunTable, number: nat)
    requires Inv(catalog, s) && Parent(number) in s.runs && Parent(number) in seen
    requires seen == s.runs[Parent(number) := seen[Parent(number)]]
    requires !HasBusyChild(s.runs, number) && forall k: nat :: !WaitsAt(s.runs, number, k)
    ensures IsSum(s.runs, number, Aggregate(seen, number))
  {
    var bad, runs := {Failed, Cancelled, Abandoned}, s.runs;
    Positions(catalog, s, number);
    forall k: nat, statuses | Child(number, k) in runs && runs[Child(number, k)].status in statuses
      ensures SomeChild(seen, number, statuses)
    {
      var id := Child(number, k);
      assert id in seen && id.Child? && id.number == number && seen[id].status in statuses;
    }
    forall statuses: set<Status>, id | id in seen && id.Child? && id.number == number && seen[id].status in statuses
      ensures id == Child(number, id.position) && runs[Child(number, id.position)].status in statuses
    {
    }
    forall k: nat | Child(number, k) in runs ensures runs[Child(number, k)].status in {Succeeded, Skipped} + bad {
      assert !WaitsAt(runs, number, k);
    }
  }

  /** A parent that is not the caller's, does not run, or has a busy child is left as it is but for its heartbeat. */
  lemma ReconcileWaits(catalog: Catalog, runs: RunTable, number: nat, exact: Option<Owner>, enabled: set<string>, now: Time)
    requires !MayDrive(runs, number, exact) || HasBusyChild(runs, number)
    ensures var (runs', r) := Reconcile(catalog, runs, number, exact, enabled, now);
            && r != Changed
            && (exact.Some? ==> (r == OwnershipLost <==> !MayDrive(runs, number, exact)))
            && runs' == if MayDrive(runs, number, exact) && exact.Some? then
                          runs[Parent(number) := runs[Parent(number)].(heartbeat := Some(now))]
                        else runs
  {
    hide Advance;
    if MayDrive(runs, number, exact) {
      NoBusyChild(runs, runs[Parent(number) := runs[Parent(number)].(heartbeat := Some(now))], number);
    }
  }

  // ---------------------------------------------------------------------------------------------------------
  // Everything that moves a run
  // ---------------------------------------------------------------------------------------------------------

  /** The executor `owner` works on the run. */
  predicate WorksFor(s: System, owner: Owner, id: RunId) {
    owner in s.executors && s.executors[owner].run == id && id in s.runs && s.runs[id].owner == Some(owner)
  }

  ghost predicate MovesTo(catalog: Catalog, s: System, e: Event, id: RunId, status: Status)
    requires id in s.runs
  {
    var r := s.runs[id];
    match status
    case Queued =>
      && r.status == Planned && e.EReconcile? && id.Child? && id.number == e.number
      && r.job in e.enabled && !Busy(s.runs, r.job)
    case Skipped =>
      && r.status == Planned && e.EReconcile? && id.Child? && id.number == e.number
      && (r.job !in e.enabled || Busy(s.runs, r.job))
    case Running => r.status == Queued && e.EClaim? && e.run == id && RunningJobs(s.runs) < e.limit
    case Succeeded =>
      && r.status == Running && !r.cancel
      && (|| (e.EPublish? && WorksFor(s, e.executor, id) && r.job in catalog.publishing)
          || (e.EFinish? && WorksFor(s, e.executor, id) && s.executors[e.executor].phase == Returned(Succeeded)))
    case Failed =>
      && r.status == Running && e.EFinish? && WorksFor(s, e.executor, id)
      && s.executors[e.executor].phase == Returned(Failed)
    case Cancelled =>
      || (&& r.status in {Planned, Queued} && e.ERequestCancellation?
          && (e.run == id || (id.Child? && e.run == Parent(id.number))))
      || (&& r.status == Running
          && (|| (e.EFinish? && WorksFor(s, e.executor, id) && s.executors[e.executor].phase == Returned(Cancelled))
              || (e.EFallBack? && WorksFor(s, e.executor, id) && s.executors[e.executor].phase == FallingBack)))
    case Abandoned =>
      && r.status == Running
      && (|| (e.ERecoverStale? && e.run == id && r.heartbeat.Some? && r.heartbeat.value < e.now - e.lease)
          || (e.ERecoverAbandoned? && e.run == id && r.owner == Some(e.owner) && r.heartbeat == Some(e.heartbeat)))
    case _ => false
  }

  /** In every reachable state the status of an executable run moves in these ways alone. */
  lemma StatusMoves(catalog: Catalog, events: seq<Event>, s: System, e: Event, id: RunId)
    requires s == Reach(catalog, events) && id in s.runs && !id.Parent?
    ensures id in Step(catalog, s, e).runs
    ensures var status := Step(catalog, s, e).runs[id].status;
            status != s.runs[id].status ==> MovesTo(catalog, s, e, id, status)
  {
    hide Inv, Reach, Reconcile, RecoverStale, Busy, RunningJobs;
    ReachKeeps(catalog, events);
    FreshRow(catalog, s, id);
    match e
    case ECreateRunAll(_) => Planning(catalog, s.nextRun);
    case ERecoverStale(k, lease, now) => StaleMoves(catalog, events, s, k, lease, now, id);
    case EReconcile(number, exact, enabled, now) => ReconcileMoves(catalog, s, number, exact, enabled, now, id);
    case ESubmit(_) =>
    case EClaim(_, _, _) =>
    case EHeartbeat(_, _, _) =>
    case ERecoverAbandoned(_, _, _) =>
    case ERequestCancellation(_) =>
    case _ => if e.executor in s.executors { ExecutorsRun(catalog, s, e.executor); }
  }

  lemma StaleMoves(catalog: Catalog, events: seq<Event>, s: System, k: RunId, lease: nat, now: Time, id: RunId)
    requires s == Reach(catalog, events) && id in s.runs && !id.Parent?
    ensures var runs' := RecoverStale(catalog, s.runs, k, lease, now, s.nextOwner);
            && id in runs'
            && (runs'[id].status != s.runs[id].status ==>
                  && k == id && s.runs[id].status == Running && runs'[id].status == Abandoned
                  && s.runs[id].heartbeat.Some? && s.runs[id].heartbeat.value < now - lease)
  {
    hide RecoverStale, Reach;
    if k in s.runs {
      RecoverExactly(catalog, events, s.runs, k, lease, now, s.nextOwner);
    } else {
      NothingToRecover(catalog, s.runs, k, lease, now, s.nextOwner);
    }
  }

  lemma NothingToRecover(catalog: Catalog, runs: RunTable, id: RunId, lease: nat, now: Time, owner: Owner)
    requires id !in runs
    ensures RecoverStale(catalog, runs, id, lease, now, owner) == runs
  {
  }

  lemma Planning(catalog: Catalog, number: nat)
    ensures forall id <- PlannedChildren(catalog, number) :: id.number == number
  {
  }

  lemma ExecutorsRun(catalog: Catalog, s: System, owner: Owner)
    requires Inv(catalog, s) && owner in s.executors
    ensures WorksFor(s, owner, s.executors[owner].run) && IsExecutable(s.executors[owner].run)
  {
    assert ExecutorOk(catalog, s, owner);
  }

  lemma ReconcileMoves(catalog: Catalog, s: System, number: nat, exact: Option<Owner>, enabled: set<string>, now: Time,
                       id: RunId)
    requires Inv(catalog, s) && id in s.runs && !id.Parent?
    ensures var runs' := Reconcile(catalog, s.runs, number, exact, enabled, now).0;
            && id in runs'
            && (runs'[id].status != s.runs[id].status ==>
                  && s.runs[id].status == Planned && id.Child? && id.number == number
                  && runs'[id].status
                     == if s.runs[id].job in enabled && !Busy(s.runs, s.runs[id].job) then Queued else Skipped)
  {
    hide Inv, Aggregate, HasActiveChild;
    var parent := Parent(number);
    if parent in s.runs {
      var seen := s.runs[parent := s.runs[parent].(heartbeat := Some(now))];
      FirstPlannedIsLowest(seen, number, 1, |catalog.jobs|);
      SameBusy(s.runs, seen, parent, s.runs[id].job);
      if FirstPlanned(seen, number, 1, |catalog.jobs|).Some? {
        assert IsPlanned(seen, number, FirstPlanned(seen, number, 1, |catalog.jobs|).value);
      }
    }
  }

  // ---------------------------------------------------------------------------------------------------------
  // Single transactions
  // ---------------------------------------------------------------------------------------------------------

  /** A job of the catalog is queued exactly if no run of it waits or runs. */
  lemma SubmitExactly(catalog: Catalog, events: seq<Event>, s: System, job: string)
    requires s == Reach(catalog, events)
    ensures var (runs', ok) := Submit(catalog, s.runs, s.nextRun, job);
            && Job(s.nextRun) !in s.runs
            && (ok <==> job in catalog.jobs && !Busy(s.runs, job))
            && runs' == if ok then s.runs[Job(s.nextRun) := Run(job, Queued, None, None, false)] else s.runs
  {
    hide Inv, Reach;
    ReachKeeps(catalog, events);
    if Job(s.nextRun) in s.runs { FreshRow(catalog, s, Job(s.nextRun)); assert false; }
    if id :| id in s.runs && !id.Parent? && s.runs[id].job == job && s.runs[id].status in {Queued, Running} {
      assert IsExecutable(id) && IsActive(s.runs[id].status);
    }
    if id :| id in s.runs && IsExecutable(id) && s.runs[id].job == job && IsActive(s.runs[id].status) {
      assert s.runs[id].status in {Queued, Running};
    }
  }

  /** A Run All inserts its parent, running and owned, and one planned child for each job in order, and nothing else. */
  lemma RunAllExactly(catalog: Catalog, events: seq<Event>, s: System, owner: Owner, now: Time, id: RunId)
    requires s == Reach(catalog, events)
    ensures var n, runs' := s.nextRun, CreateRunAll(catalog, s.runs, s.nextRun, owner, now);
            && (forall k <- s.runs :: k.number != n)
            && Parent(n) in runs' && runs'[Parent(n)] == Run("", Running, Some(owner), Some(now), false)
            && (forall k: nat :: Child(n, k) in runs' <==> 1 <= k <= |catalog.jobs|)
            && (forall k: nat | 1 <= k <= |catalog.jobs| ::
                  runs'[Child(n, k)] == Run(catalog.jobs[k - 1], Planned, None, None, false))
            && (id.number != n ==> (id in runs' <==> id in s.runs) && (id in s.runs ==> runs'[id] == s.runs[id]))
            && Job(n) !in runs'
  {
    hide Inv, Reach;
    ReachKeeps(catalog, events);
    forall k <- s.runs ensures k.number != s.nextRun { FreshRow(catalog, s, k); }
    forall k: nat ensures Child(s.nextRun, k) in ChildIds(catalog, s.nextRun) <==> 1 <= k <= |catalog.jobs| {}
  }

  /** A waiting run is claimed exactly if fewer than `limit` run; nothing but its row changes. */
  lemma ClaimExactly(runs: RunTable, id: RunId, owner: Owner, limit: nat, now: Time)
    requires id in runs
    ensures var running := set k | k in runs && !k.Parent? && runs[k].status == Running;
            Claim(runs, id, owner, limit, now) ==
            if !id.Parent? && runs[id].status == Queued && |running| < limit then
              runs[id := Run(runs[id].job, Running, Some(owner), Some(now), runs[id].cancel)]
            else runs
  {
    assert (set k | k in runs && !k.Parent? && runs[k].status == Running)
        == (set k | k in runs && IsExecutable(k) && runs[k].status == Running);
  }

  /** A run ends by its owner exactly while it runs, and with a success only if it is not to be cancelled. */
  lemma FinishExactly(runs: RunTable, id: RunId, owner: Owner, status: Status)
    requires id in runs && status in {Succeeded, Failed, Cancelled}
    ensures var (runs', ok) := Finish(runs, id, owner, status);
            && (ok <==> && runs[id].status == Running && runs[id].owner == Some(owner)
                        && (status == Succeeded ==> !runs[id].cancel))
            && runs' == if ok then runs[id := runs[id].(status := status)] else runs
  {
  }

  /** A heartbeat is written exactly for the owner of a running run. */
  lemma HeartbeatExactly(runs: RunTable, id: RunId, owner: Owner, now: Time)
    requires id in runs && !id.Parent?
    ensures Heartbeat(runs, id, owner, now)
         == if runs[id].status == Running && runs[id].owner == Some(owner) then
              runs[id := runs[id].(heartbeat := Some(now))]
            else runs
  {
  }

  /** A stale run is abandoned, a stale parent handed over; exactly those whose heartbeat is older than the lease. */
  lemma RecoverExactly(catalog: Catalog, events: seq<Event>, runs: RunTable, id: RunId, lease: nat, now: Time,
                       owner: Owner)
    requires runs == Reach(catalog, events).runs && id in runs
    ensures RecoverStale(catalog, runs, id, lease, now, owner)
         == if runs[id].status == Running && runs[id].owner.Some? && runs[id].heartbeat.Some?
               && runs[id].heartbeat.value + lease < now
            then
              (if id.Parent? then runs[id := runs[id].(owner := Some(owner), heartbeat := Some(now))]
               else runs[id := runs[id].(status := Abandoned)])
            else runs
  {
    hide Inv, Reach, Ensured, Canonical;
    ReachKeeps(catalog, events);
    if id.Parent? && runs[id].status == Running {
      var s := Reach(catalog, events);
      var r := runs[id].(owner := Some(owner), heartbeat := Some(now));
      Untouched(catalog, s, id);
      RowKeeps(catalog, s, id, r);
      InvParents(catalog, s);
      InvParents(catalog, s.(runs := runs[id := r]));
      NothingToEnsure(catalog, runs, id.number);
      NothingToEnsure(catalog, runs[id := r], id.number);
    }
  }

  /** By hand a running run is abandoned exactly under the owner and heartbeat that were seen. */
  lemma AbandonExactly(runs: RunTable, id: RunId, owner: Owner, heartbeat: Time)
    requires id in runs
    ensures RecoverAbandoned(runs, id, owner, heartbeat)
         == if runs[id].status == Running && runs[id].owner == Some(owner) && runs[id].heartbeat == Some(heartbeat) then
              runs[id := runs[id].(status := Abandoned)]
            else runs
  {
  }

  // ---------------------------------------------------------------------------------------------------------
  // Cancellation
  // ---------------------------------------------------------------------------------------------------------

  /**
   Cancelling ends what has not started, marks what runs, and leaves the rest: the run itself, or the parent with its
   children.
  */
  lemma CancellationExactly(runs: RunTable, id: RunId, k: RunId)
    requires id in runs && k in runs
    ensures var runs', r := RequestCancellation(runs, id), runs[k];
            && runs'.Keys == runs.Keys
            && runs'[k] ==
               if runs[id].status !in {Planned, Queued, Running} then r
               else if k == id && k.Parent? then r.(cancel := true)
               else if k == id || (id.Parent? && k.Child? && k.number == id.number) then
                 (match r.status
                  case Planned => r.(status := Cancelled, cancel := true)
                  case Queued => r.(status := Cancelled, cancel := true)
                  case Running => r.(cancel := true)
                  case _ => r)
               else r
  {
  }

  /** A child that had not ended when its parent was cancelled never succeeds, and starts nothing any more. */
  predicate Doomed(runs: RunTable, id: RunId) {
    && id in runs && !id.Parent? && runs[id].cancel
    && runs[id].status in {Running, Failed, Cancelled, Abandoned}
  }

  lemma {:induction false} CancelledNeverSucceeds(catalog: Catalog, before: seq<Event>, more: seq<Event>, id: RunId,
                                                  child: RunId)
    requires var runs := Reach(catalog, before).runs;
             && id in runs && child in runs && !child.Parent?
             && !IsTerminal(runs[id].status) && !IsTerminal(runs[child].status)
             && (child == id || (id.Parent? && child.Child? && child.number == id.number))
    ensures Doomed(Reach(catalog, before + [ERequestCancellation(id)] + more).runs, child)
  {
    hide Reach, Step;
    var start := before + [ERequestCancellation(id)];
    ReachMore(catalog, before, ERequestCancellation(id));
    if more == [] {
      assert start + more == start;
      CancelDooms(catalog, Reach(catalog, before), id, child);
    } else {
      var n := |more| - 1;
      assert start + more == (start + more[..n]) + [more[n]];
      ReachMore(catalog, start + more[..n], more[n]);
      CancelledNeverSucceeds(catalog, before, more[..n], id, child);
      DoomedStays(catalog, start + more[..n], more[n], child);
    }
  }

  lemma ReachMore(catalog: Catalog, events: seq<Event>, e: Event)
    ensures Reach(catalog, events + [e]) == Step(catalog, Reach(catalog, events), e)
  {
    hide Step;
    assert (events + [e])[..|events + [e]| - 1] == events;
  }

  lemma CancelDooms(catalog: Catalog, s: System, id: RunId, child: RunId)
    requires id in s.runs && child in s.runs && !child.Parent?
    requires !IsTerminal(s.runs[id].status) && !IsTerminal(s.runs[child].status)
    requires child == id || (id.Parent? && child.Child? && child.number == id.number)
    ensures Doomed(Step(catalog, s, ERequestCancellation(id)).runs, child)
  {
  }

  lemma DoomedStays(catalog: Catalog, events: seq<Event>, e: Event, child: RunId)
    requires Doomed(Reach(catalog, events).runs, child)
    ensures Doomed(Step(catalog, Reach(catalog, events), e).runs, child)
  {
    hide Reach, Step, Inv, RunningJobs;
    ReachKeeps(catalog, events);
    StatusMoves(catalog, events, Reach(catalog, events), e, child);
    EndedStep(catalog, Reach(catalog, events), e, child);
  }

  // ---------------------------------------------------------------------------------------------------------
  // A run can succeed
  // ---------------------------------------------------------------------------------------------------------

  /** A waiting run that somebody claims within the limit succeeds if nobody interferes: claim, publish, return, finish. */
  lemma WaitingRunCanSucceed(catalog: Catalog, events: seq<Event>, s: System, id: RunId, limit: nat, now: Time)
    requires s == Reach(catalog, events) && id in s.runs && !id.Parent?
    requires s.runs[id].status == Queued && !s.runs[id].cancel
    requires RunningJobs(s.runs) < limit
    ensures var owner := s.nextOwner;
            var publish := if s.runs[id].job in catalog.publishing then [EPublish(owner, true)] else [];
            var s' := Reach(catalog, events + [EClaim(id, limit, now)] + publish
                                     + [EReturn(owner, Succeeded), EFinish(owner, true)]);
            && id in s'.runs && s'.runs[id] == Run(s.runs[id].job, Succeeded, Some(owner), Some(now), false)
            && s'.runs == s.runs[id := s'.runs[id]]
            && s'.published == s.published + if s.runs[id].job in catalog.publishing then [Publication(id, owner)] else []
  {
    hide Reach, RunningJobs, Inv, Step;
    var owner := s.nextOwner;
    ClaimedStep(catalog, s, id, limit, now);
    var s1 := Step(catalog, s, EClaim(id, limit, now));
    PublishedStep(catalog, s1, owner);
    var s2 := if s.runs[id].job in catalog.publishing then Step(catalog, s1, EPublish(owner, true)) else s1;
    EndingSteps(catalog, s2, owner);
    var publish := if s.runs[id].job in catalog.publishing then [EPublish(owner, true)] else [];
    var claimed := events + [EClaim(id, limit, now)];
    ReachMore(catalog, events, EClaim(id, limit, now));
    assert claimed + [] == claimed;
    if publish != [] { ReachMore(catalog, claimed, EPublish(owner, true)); }
    var published := claimed + publish;
    ReachMore(catalog, published, EReturn(owner, Succeeded));
    ReachMore(catalog, published + [EReturn(owner, Succeeded)], EFinish(owner, true));
    assert published + [EReturn(owner, Succeeded)] + [EFinish(owner, true)]
        == published + [EReturn(owner, Succeeded), EFinish(owner, true)];
  }

  lemma ClaimedStep(catalog: Catalog, s: System, id: RunId, limit: nat, now: Time)
    requires id in s.runs && !id.Parent? && s.runs[id].status == Queued && RunningJobs(s.runs) < limit
    ensures Step(catalog, s, EClaim(id, limit, now))
         == s.(runs := s.runs[id := Run(s.runs[id].job, Running, Some(s.nextOwner), Some(now), s.runs[id].cancel)],
               executors := s.executors[s.nextOwner := Executor(id, false, Working)], nextOwner := s.nextOwner + 1)
  {
    hide RunningJobs;
  }

  lemma PublishedStep(catalog: Catalog, s: System, owner: Owner)
    requires owner in s.executors && s.executors[owner].run in s.runs && s.executors[owner].phase == Working
    requires var r := s.runs[s.executors[owner].run]; r.status == Running && r.owner == Some(owner) && !r.cancel
    ensures var x := s.executors[owner];
            s.runs[x.run].job in catalog.publishing ==>
              Step(catalog, s, EPublish(owner, true))
              == s.(runs := s.runs[x.run := s.runs[x.run].(status := Succeeded)],
                    published := s.published + [Publication(x.run, owner)],
                    executors := s.executors[owner := x.(told := true)])
  {
  }

  /** Returning and finishing leave a published run succeeded, and make any other so. */
  lemma EndingSteps(catalog: Catalog, s: System, owner: Owner)
    requires owner in s.executors && s.executors[owner].run in s.runs && s.executors[owner].phase == Working
    requires var x, r := s.executors[owner], s.runs[s.executors[owner].run];
             && r.owner == Some(owner) && !r.cancel
             && if r.job in catalog.publishing then r.status == Succeeded && x.told else r.status == Running
    ensures var x, s' := s.executors[owner], Step(catalog, Step(catalog, s, EReturn(owner, Succeeded)), EFinish(owner, true));
            s'.runs == s.runs[x.run := s.runs[x.run].(status := Succeeded)] && s'.published == s.published
  {
  }

  /** An executor that does not hear of its commit learns of it from the run, and then returns its success. */
  lemma LostCommitIsLearned(catalog: Catalog, s: System, owner: Owner)
    requires Publishes(catalog, s, owner)
    ensures var id := s.executors[owner].run;
            var s' := Step(catalog, Step(catalog, Step(catalog, s, EPublish(owner, false)), ECheckPublished(owner)),
                           EReturn(owner, Succeeded));
            && s'.executors[owner] == Executor(id, true, Returned(Succeeded))
            && s'.runs == s.runs[id := s.runs[id].(status := Succeeded)]
            && s'.published == s.published + [Publication(id, owner)]
  {
  }
}
