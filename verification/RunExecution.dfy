/** What holds of ingestion runs, executors and Run All parents over whole runs of the system. */
module RunExecution {
  import opened Options
  import opened Runs
  import opened RunInvariants
  import opened RunSteps
  import opened RunEvents

  lemma {:induction false} ReachKeeps(catalog: Catalog, events: seq<Event>)
    ensures Inv(catalog, Reach(catalog, events))
  {
    hide Inv, Step;
    if events == [] {
      InitialInv(catalog);
    } else {
      ReachKeeps(catalog, events[..|events| - 1]);
      StepKeeps(catalog, Reach(catalog, events[..|events| - 1]), events[|events| - 1]);
    }
  }

  // ---------------------------------------------------------------------------------------------------------
  // Success and publication
  // ---------------------------------------------------------------------------------------------------------

  /**
   A run of a publishing job has succeeded exactly when its data was published, once, by the owner that claimed it;
   otherwise no final table was ever changed for it.
  */
  lemma SucceededIffPublished(catalog: Catalog, events: seq<Event>, id: RunId)
    requires id in Reach(catalog, events).runs && IsExecutable(id)
    requires Reach(catalog, events).runs[id].job in catalog.publishing
    ensures var s := Reach(catalog, events); var r := s.runs[id];
            if r.status == Succeeded then
              && r.owner.Some? && r.owner.value in s.executors && s.executors[r.owner.value].run == id
              && Of(s.published, id) == [Publication(id, r.owner.value)]
            else Of(s.published, id) == []
  {
    ReachKeeps(catalog, events);
    var s := Reach(catalog, events);
    assert RunOk(s, id) && PublishedOk(catalog, s, id);
  }

  /** A run that ended, or is to be cancelled, does not publish any more; a run that ended keeps its status. */
  lemma {:induction false} EndedIsFinal(catalog: Catalog, before: seq<Event>, more: seq<Event>, id: RunId)
    requires id in Reach(catalog, before).runs && IsExecutable(id)
    requires IsTerminal(Reach(catalog, before).runs[id].status) || Reach(catalog, before).runs[id].cancel
    ensures id in Reach(catalog, before + more).runs
    ensures var r, r' := Reach(catalog, before).runs[id], Reach(catalog, before + more).runs[id];
            && (IsTerminal(r.status) ==> r'.status == r.status)
            && (r.cancel ==> r'.cancel)
    ensures Of(Reach(catalog, before + more).published, id) == Of(Reach(catalog, before).published, id)
  {
    hide Step, Of;
    if more == [] {
      assert before + more == before;
    } else {
      var n := |more| - 1;
      assert (before + more)[..|before + more| - 1] == before + more[..n];
      EndedIsFinal(catalog, before, more[..n], id);
      ReachKeeps(catalog, before + more[..n]);
      EndedStep(catalog, Reach(catalog, before + more[..n]), more[n], id);
    }
  }

  lemma EndedStep(catalog: Catalog, s: System, e: Event, id: RunId)
    requires Inv(catalog, s) && id in s.runs && IsExecutable(id)
    requires IsTerminal(s.runs[id].status) || s.runs[id].cancel
    ensures id in Step(catalog, s, e).runs
    ensures IsTerminal(s.runs[id].status) ==> Step(catalog, s, e).runs[id].status == s.runs[id].status
    ensures s.runs[id].cancel ==> Step(catalog, s, e).runs[id].cancel
    ensures Of(Step(catalog, s, e).published, id) == Of(s.published, id)
  {
    hide Inv, Aggregate, FirstPlanned, HasActiveChild;
    FreshRow(catalog, s, id);
    var s' := Step(catalog, s, e);
    if e.EPublish? && s'.published != s.published {
      assert s'.published[..|s'.published| - 1] == s.published;
    }
    if e.ERecoverStale? && e.run.Parent? { InvParents(catalog, s); EnsuredKeeps(catalog, s.runs, e.run, id); }
    if e.EReconcile? { ReconciledRow(catalog, s.runs, e.number, e.exact, e.enabled, e.now, id); }
  }

  lemma FreshRow(catalog: Catalog, s: System, id: RunId)
    requires Inv(catalog, s) && id in s.runs
    ensures id.number < s.nextRun
  {
    assert NumberOk(s.runs, s.nextRun, id);
  }

  lemma EnsuredKeeps(catalog: Catalog, runs: RunTable, parent: RunId, id: RunId)
    requires id in runs && parent.Parent?
    ensures id in Ensured(catalog, runs, parent.number) && Ensured(catalog, runs, parent.number)[id] == runs[id]
  {
  }

  lemma ReconciledRow(catalog: Catalog, runs: RunTable, number: nat, exact: Option<Owner>, enabled: set<string>, now: Time,
                      id: RunId)
    requires id in runs && IsExecutable(id)
    ensures var runs' := Reconcile(catalog, runs, number, exact, enabled, now).0;
            && id in runs'
            && (runs'[id] == runs[id]
                || (runs[id].status == Planned && runs'[id] == runs[id].(status := runs'[id].status)))
  {
    var parent := Parent(number);
    if parent in runs {
      var seen := runs[parent := runs[parent].(heartbeat := Some(now))];
      FirstPlannedIsLowest(seen, number, 1, |catalog.jobs|);
      if FirstPlanned(seen, number, 1, |catalog.jobs|).Some? {
        assert IsPlanned(seen, number, FirstPlanned(seen, number, 1, |catalog.jobs|).value);
      }
    }
  }

  // ---------------------------------------------------------------------------------------------------------
  // Run All
  // ---------------------------------------------------------------------------------------------------------

  /** At most one child of a parent is queued or running, and everything before it has ended. */
  lemma ChildrenInOrder(catalog: Catalog, events: seq<Event>, number: nat, j: nat, k: nat)
    requires var runs := Reach(catalog, events).runs;
             && Child(number, j) in runs && Child(number, k) in runs && IsActive(runs[Child(number, k)].status)
    ensures var runs := Reach(catalog, events).runs;
            && (j < k ==> IsTerminal(runs[Child(number, j)].status))
            && (IsActive(runs[Child(number, j)].status) ==> j == k)
  {
    ReachKeeps(catalog, events);
    var runs := Reach(catalog, events).runs;
    assert OrderOk(runs, number, j, k) && OrderOk(runs, number, k, j);
  }

  /** One ended child for every job of the catalog, summed up by `status`. */
  ghost predicate SumsUp(catalog: Catalog, runs: RunTable, number: nat, status: Status) {
    && (forall k: nat | 1 <= k <= |catalog.jobs| ::
          && Child(number, k) in runs
          && runs[Child(number, k)].job == catalog.jobs[k - 1]
          && runs[Child(number, k)].status in {Succeeded, Skipped, Failed, Cancelled, Abandoned})
    && (status != Cancelled ==>
          && (status == Completed <==> forall k: nat | 1 <= k <= |catalog.jobs| :: Ended(runs, number, k, {Succeeded}))
          && (status == Failed <==>
                exists k: nat :: 1 <= k <= |catalog.jobs| && Ended(runs, number, k, {Failed, Cancelled, Abandoned})))
  }

  predicate Ended(runs: RunTable, number: nat, k: nat, statuses: set<Status>) {
    Child(number, k) in runs && runs[Child(number, k)].status in statuses
  }

  /** The children of a settled parent have all ended, and its status is their sum. */
  lemma SettledParent(catalog: Catalog, events: seq<Event>, number: nat, runs: RunTable, status: Status)
    requires runs == Reach(catalog, events).runs && Parent(number) in runs && status == runs[Parent(number)].status
    requires status == Completed || status == CompletedWithSkips || status == Failed || status == Cancelled
    ensures SumsUp(catalog, runs, number, status)
  {
    ReachKeeps(catalog, events);
    SettledChildren(catalog, Reach(catalog, events), number);
  }

  lemma SettledChildren(catalog: Catalog, s: System, number: nat)
    requires Inv(catalog, s) && Parent(number) in s.runs
    requires s.runs[Parent(number)].status in {Completed, CompletedWithSkips, Failed, Cancelled}
    ensures SumsUp(catalog, s.runs, number, s.runs[Parent(number)].status)
  {
    var runs, bad := s.runs, {Failed, Cancelled, Abandoned};
    assert ParentOk(runs, number);
    forall k: nat | 1 <= k <= |catalog.jobs|
      ensures Child(number, k) in runs && runs[Child(number, k)].job == catalog.jobs[k - 1]
      ensures runs[Child(number, k)].status in {Succeeded, Skipped, Failed, Cancelled, Abandoned}
      ensures Ended(runs, number, k, bad) ==> SomeChild(runs, number, bad)
      ensures Ended(runs, number, k, {Skipped}) ==> SomeChild(runs, number, {Skipped})
    {
      var id := Child(number, k);
      assert ChildOk(catalog, runs, number, k) && RunOk(s, id);
      assert id.Child? && id.number == number;
    }
    if SomeChild(runs, number, bad) { NotAllSucceeded(catalog, runs, number, bad); }
    if SomeChild(runs, number, {Skipped}) { NotAllSucceeded(catalog, runs, number, {Skipped}); }
  }

  lemma NotAllSucceeded(catalog: Catalog, runs: RunTable, number: nat, statuses: set<Status>)
    requires ParentsOk(catalog, runs) && SomeChild(runs, number, statuses) && Succeeded !in statuses
    ensures exists k: nat :: 1 <= k <= |catalog.jobs| && Ended(runs, number, k, statuses)
    ensures exists k: nat :: 1 <= k <= |catalog.jobs| && !Ended(runs, number, k, {Succeeded})
  {
    var id :| id in runs && id.Child? && id.number == number && runs[id].status in statuses;
    assert id == Child(number, id.position) && ChildOk(catalog, runs, number, id.position);
    assert Ended(runs, number, id.position, statuses) && !Ended(runs, number, id.position, {Succeeded});
  }

  /** No two active executable runs are for the same job. */
  lemma OneActiveRunPerJob(catalog: Catalog, events: seq<Event>, i: RunId, j: RunId)
    requires var runs := Reach(catalog, events).runs;
             && i in runs && j in runs && IsExecutable(i) && IsExecutable(j)
             && IsActive(runs[i].status) && IsActive(runs[j].status) && runs[i].job == runs[j].job
    ensures i == j
  {
    ReachKeeps(catalog, events);
    assert SameJob(Reach(catalog, events).runs, i, j);
  }

  /** A claim leaves at most as many jobs running as the limit it read. */
  lemma ClaimRespectsLimit(runs: RunTable, id: RunId, owner: Owner, limit: nat, now: Time)
    requires Claimable(runs, id, limit)
    ensures RunningJobs(Claim(runs, id, owner, limit, now)) == RunningJobs(runs) + 1 <= limit
  {
    var running := set k | k in runs && IsExecutable(k) && runs[k].status == Running;
    var runs' := Claim(runs, id, owner, limit, now);
    assert (set k | k in runs' && IsExecutable(k) && runs'[k].status == Running) == running + {id};
  }

  /** A finish goes through for the owner of a running run alone, and after it nobody's finish or heartbeat changes anything. */
  lemma FinishSettles(runs: RunTable, id: RunId, owner: Owner, status: Status, other: Owner, again: Status, now: Time)
    requires IsExecutable(id)
    ensures var (runs', ok) := Finish(runs, id, owner, status);
            && (!ok ==> runs' == runs)
            && (ok ==> && id in runs && runs[id].status == Running && runs[id].owner == Some(owner)
                       && IsTerminal(runs'[id].status) && (status == Succeeded ==> !runs[id].cancel)
                       && Finish(runs', id, other, again) == (runs', false)
                       && Heartbeat(runs', id, other, now) == runs')
            && (id in runs && IsTerminal(runs[id].status) ==> runs' == runs)
  {
  }
}
