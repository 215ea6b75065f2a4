/**
 The run repository of internal/ingestionrun/repository.go statement by statement, and the coordinator's loop over one
 owned parent.
*/
module RunRepository {
  import opened Options
  import opened Runs
  import opened RunInvariants
  import opened RunSteps
  import opened RunEvents
  import opened RunExecution

  class Repository {
    const catalog: Catalog
    var runs: RunTable

    constructor (catalog: Catalog)
      ensures this.catalog == catalog && runs == map[]
    {
      this.catalog := catalog;
      runs := map[];
    }

    /** Inserts the parent row, owns it, then inserts one planned child per job. */
    method CreateRunAll(number: nat, owner: Owner, now: Time)
      modifies this`runs
      ensures runs == Runs.CreateRunAll(catalog, old(runs), number, owner, now)
    {
      runs := runs[Parent(number) := Run("", Running, None, None, false)];
      runs := runs[Parent(number) := runs[Parent(number)].(owner := Some(owner), heartbeat := Some(now))];
      ghost var start := old(runs)[Parent(number) := Run("", Running, Some(owner), Some(now), false)];
      assert runs == start;
      for index := 0 to |catalog.jobs|
        invariant runs == CreatedUpTo(catalog, start, number, index)
      {
        runs := runs[Child(number, index + 1) := Run(catalog.jobs[index], Planned, None, None, false)];
      }
      AllCreated(catalog, start, number);
    }

    /** Checks the children that exist, then inserts those that are missing. */
    method EnsureRunAllChildren(number: nat) returns (ok: bool)
      modifies this`runs
      ensures ok == Canonical(catalog, old(runs), number)
      ensures runs == if ok then Ensured(catalog, old(runs), number) else old(runs)
    {
      hide Canonical, Ensured;
      if !Canonical(catalog, runs, number) { return false; }
      for index := 0 to |catalog.jobs|
        invariant runs == EnsuredUpTo(catalog, old(runs), number, index)
      {
        if Child(number, index + 1) !in runs {
          runs := runs[Child(number, index + 1) := Run(catalog.jobs[index], Planned, None, None, false)];
        }
      }
      AllEnsured(catalog, old(runs), number);
      return true;
    }

    method Claim(id: RunId, owner: Owner, limit: nat, now: Time) returns (claimed: bool)
      modifies this`runs
      ensures claimed == Claimable(old(runs), id, limit)
      ensures runs == Runs.Claim(old(runs), id, owner, limit, now)
    {
      if RunningJobs(runs) >= limit { return false; }
      if id !in runs || !IsExecutable(id) || runs[id].status != Queued { return false; }
      runs := runs[id := runs[id].(status := Running)];
      runs := runs[id := runs[id].(owner := Some(owner), heartbeat := Some(now))];
      assert runs == old(runs)[id := runs[id]];
      return true;
    }

    method Finish(id: RunId, owner: Owner, status: Status) returns (ok: bool)
      modifies this`runs
      ensures (runs, ok) == Runs.Finish(old(runs), id, owner, status)
    {
      if status != Succeeded && status != Failed && status != Cancelled { return false; }
      ok := OwnedBy(runs, id, owner) && (status == Succeeded ==> !runs[id].cancel);
      if ok { runs := runs[id := runs[id].(status := status)]; }
    }

    method RecoverOneStale(id: RunId, lease: nat, now: Time, owner: Owner)
      modifies this`runs
      ensures runs == RecoverStale(catalog, old(runs), id, lease, now, owner)
    {
      if id !in runs || !IsStale(runs[id], lease, now) { return; }
      if id.Parent? {
        var before := runs;
        runs := runs[id := runs[id].(owner := Some(owner))];
        runs := runs[id := runs[id].(heartbeat := Some(now))];
        assert runs == old(runs)[id := runs[id]];
        SameCanonical(catalog, before, runs, id.number);
        var ok := EnsureRunAllChildren(id.number);
        if !ok { runs := before; }
      } else {
        runs := runs[id := runs[id].(status := Abandoned)];
      }
    }

    method RequestCancellation(id: RunId) returns (applied: bool)
      modifies this`runs
      ensures applied == (id in old(runs) && !IsTerminal(old(runs)[id].status))
      ensures runs == Runs.RequestCancellation(old(runs), id)
    {
      if id !in runs || IsTerminal(runs[id].status) { return false; }
      if id.Parent? {
        runs := runs[id := runs[id].(cancel := true)];
        ghost var marked := runs;
        runs := map k | k in runs :: if IsChildOf(k, id) then CancelWaiting(runs[k]) else runs[k];
        runs := map k | k in runs :: if IsChildOf(k, id) then CancelRunning(runs[k]) else runs[k];
        CancelledInTwo(old(runs), marked, id);
      } else if runs[id].status == Planned || runs[id].status == Queued {
        runs := runs[id := runs[id].(status := Cancelled, cancel := true)];
      } else {
        runs := runs[id := runs[id].(cancel := true)];
      }
      return true;
    }

    method Reconcile(number: nat, exact: Option<Owner>, enabled: set<string>, now: Time) returns (r: Reconciled)
      modifies this`runs
      ensures (runs, r) == Runs.Reconcile(catalog, old(runs), number, exact, enabled, now)
    {
      var id := Parent(number);
      if exact.Some? {
        if id !in runs || runs[id].status != Running || runs[id].owner != exact { return OwnershipLost; }
      } else {
        if id !in runs || runs[id].status != Running || HasActiveChild(runs, number) { return Unchanged; }
      }
      if runs[id].owner.None? { return Unchanged; }
      runs := runs[id := runs[id].(heartbeat := Some(now))];
      if HasActiveChild(runs, number) { return Unchanged; }
      if runs[id].cancel {
        runs := runs[id := runs[id].(status := Cancelled)];
        return Changed;
      }
      var next := FirstPlanned(runs, number, 1, |catalog.jobs|);
      FirstPlannedIsLowest(runs, number, 1, |catalog.jobs|);
      if next.None? {
        runs := runs[id := runs[id].(status := Aggregate(runs, number))];
        return Changed;
      }
      assert IsPlanned(runs, number, next.value);
      var child := Child(number, next.value);
      if runs[child].job !in enabled {
        runs := runs[child := runs[child].(status := Skipped)];
      } else {
        var job := runs[child].job;
        if ActiveJob(runs, job) {
          runs := runs[child := runs[child].(status := Skipped)];
        } else {
          runs := runs[child := runs[child].(status := Queued)];
        }
      }
      return Changed;
    }

    /** The coordinator's loop: it goes on while steps change something, and so must end. */
    method ReconcileOwnedParent(number: nat, owner: Owner, enabled: set<string>, now: Time) returns (lost: bool)
      requires ParentsOk(catalog, runs)
      modifies this`runs
      ensures lost ==> !OwnedBy(runs, Parent(number), owner)
      ensures !lost ==> OwnedBy(runs, Parent(number), owner) && HasActiveChild(runs, number)
    {
      while true
        invariant runs.Keys == old(runs).Keys
        decreases Remaining(runs, number)
      {
        ghost var before := runs;
        var r := Reconcile(number, Some(owner), enabled, now);
        match r {
          case OwnershipLost => return true;
          case Unchanged => return false;
          case Changed => ChangeLowers(catalog, before, number, Some(owner), enabled, now);
        }
      }
    }
  }

  predicate IsChildOf(k: RunId, id: RunId) { k.Child? && k.number == id.number }

  /** The update of planned and queued children, and that of running ones. */
  function CancelWaiting(r: Run): Run {
    if r.status == Planned || r.status == Queued then r.(status := Cancelled, cancel := true) else r
  }

  function CancelRunning(r: Run): Run {
    if r.status == Running then r.(cancel := true) else r
  }

  lemma CancelledInTwo(runs: RunTable, marked: RunTable, id: RunId)
    requires id.Parent? && id in runs && !IsTerminal(runs[id].status)
    requires marked == runs[id := runs[id].(cancel := true)]
    ensures var waiting := map k | k in marked :: if IsChildOf(k, id) then CancelWaiting(marked[k]) else marked[k];
            (map k | k in waiting :: if IsChildOf(k, id) then CancelRunning(waiting[k]) else waiting[k])
            == Runs.RequestCancellation(runs, id)
  {
  }

  /** The rows with the first n children inserted, whether or not they are there. */
  function CreatedUpTo(catalog: Catalog, runs: RunTable, number: nat, n: nat): RunTable
    requires n <= |catalog.jobs|
  {
    if n == 0 then runs
    else CreatedUpTo(catalog, runs, number, n - 1)[Child(number, n) := Run(catalog.jobs[n - 1], Planned, None, None, false)]
  }

  function EnsuredUpTo(catalog: Catalog, runs: RunTable, number: nat, n: nat): RunTable
    requires n <= |catalog.jobs|
  {
    if n == 0 then runs
    else
      var before := EnsuredUpTo(catalog, runs, number, n - 1);
      if Child(number, n) in before then before
      else before[Child(number, n) := Run(catalog.jobs[n - 1], Planned, None, None, false)]
  }

  predicate Inserted(id: RunId, number: nat, n: nat) { id.Child? && id.number == number && 1 <= id.position <= n }

  lemma {:induction false} CreatedRow(catalog: Catalog, runs: RunTable, number: nat, n: nat, id: RunId)
    requires n <= |catalog.jobs|
    ensures var created := CreatedUpTo(catalog, runs, number, n);
            && (id in created <==> id in runs || Inserted(id, number, n))
            && (Inserted(id, number, n) ==> created[id] == Run(catalog.jobs[id.position - 1], Planned, None, None, false))
            && (!Inserted(id, number, n) && id in runs ==> created[id] == runs[id])
  {
    if n > 0 { CreatedRow(catalog, runs, number, n - 1, id); }
  }

  lemma {:induction false} EnsuredRow(catalog: Catalog, runs: RunTable, number: nat, n: nat, id: RunId)
    requires n <= |catalog.jobs|
    ensures var ensured := EnsuredUpTo(catalog, runs, number, n);
            && (id in ensured <==> id in runs || Inserted(id, number, n))
            && (id in runs ==> ensured[id] == runs[id])
            && (id !in runs && Inserted(id, number, n) ==>
                  ensured[id] == Run(catalog.jobs[id.position - 1], Planned, None, None, false))
  {
    if n > 0 { EnsuredRow(catalog, runs, number, n - 1, id); }
  }

  lemma PlannedRow(catalog: Catalog, number: nat, id: RunId)
    ensures id in PlannedChildren(catalog, number) <==> Inserted(id, number, |catalog.jobs|)
  {
    assert Inserted(id, number, |catalog.jobs|) ==> id == Child(number, id.position);
  }

  lemma AllCreated(catalog: Catalog, runs: RunTable, number: nat)
    ensures CreatedUpTo(catalog, runs, number, |catalog.jobs|) == runs + PlannedChildren(catalog, number)
  {
    forall id ensures id in CreatedUpTo(catalog, runs, number, |catalog.jobs|) <==> id in runs + PlannedChildren(catalog, number)
      ensures id in runs + PlannedChildren(catalog, number) ==>
        CreatedUpTo(catalog, runs, number, |catalog.jobs|)[id] == (runs + PlannedChildren(catalog, number))[id]
    {
      CreatedRow(catalog, runs, number, |catalog.jobs|, id);
      PlannedRow(catalog, number, id);
    }
  }

  lemma AllEnsured(catalog: Catalog, runs: RunTable, number: nat)
    ensures EnsuredUpTo(catalog, runs, number, |catalog.jobs|) == Ensured(catalog, runs, number)
  {
    forall id ensures id in EnsuredUpTo(catalog, runs, number, |catalog.jobs|) <==> id in Ensured(catalog, runs, number)
      ensures id in Ensured(catalog, runs, number) ==>
        EnsuredUpTo(catalog, runs, number, |catalog.jobs|)[id] == Ensured(catalog, runs, number)[id]
    {
      EnsuredRow(catalog, runs, number, |catalog.jobs|, id);
      PlannedRow(catalog, number, id);
    }
  }

  lemma SameCanonical(catalog: Catalog, runs: RunTable, runs': RunTable, number: nat)
    requires runs'.Keys == runs.Keys && forall id | id in runs :: runs'[id].job == runs[id].job
    ensures Canonical(catalog, runs', number) == Canonical(catalog, runs, number)
  {
  }

  // ---------------------------------------------------------------------------------------------------------
  // What is left to do for a parent
  // ---------------------------------------------------------------------------------------------------------

  function PlannedOf(runs: RunTable, number: nat): set<RunId> {
    set id | id in runs && id.Child? && id.number == number && runs[id].status == Planned
  }

  /** Planned children, plus one while the parent runs. */
  function Remaining(runs: RunTable, number: nat): nat {
    |PlannedOf(runs, number)| + if Parent(number) in runs && runs[Parent(number)].status == Running then 1 else 0
  }

  lemma ChangeLowers(catalog: Catalog, runs: RunTable, number: nat, exact: Option<Owner>, enabled: set<string>, now: Time)
    requires Reconcile(catalog, runs, number, exact, enabled, now).1 == Changed
    ensures Remaining(Reconcile(catalog, runs, number, exact, enabled, now).0, number) < Remaining(runs, number)
    ensures Reconcile(catalog, runs, number, exact, enabled, now).0.Keys == runs.Keys
  {
    hide FirstPlanned, Aggregate;
    var parent := Parent(number);
    var seen := runs[parent := runs[parent].(heartbeat := Some(now))];
    var runs' := Reconcile(catalog, runs, number, exact, enabled, now).0;
    var next := FirstPlanned(seen, number, 1, |catalog.jobs|);
    FirstPlannedIsLowest(seen, number, 1, |catalog.jobs|);
    AggregateStatus(seen, number);
    if runs'[parent].status != Running {
      assert PlannedOf(runs', number) == PlannedOf(runs, number);
    } else {
      var child := Child(number, next.value);
      assert IsPlanned(seen, number, next.value);
      assert PlannedOf(runs', number) == PlannedOf(runs, number) - {child};
      assert child in PlannedOf(runs, number);
    }
  }

  /** No event of anyone else adds to it, so the loop ends under any interleaving. */
  lemma NothingAdds(catalog: Catalog, s: System, e: Event, number: nat)
    requires Inv(catalog, s) && Parent(number) in s.runs
    ensures Remaining(Step(catalog, s, e).runs, number) <= Remaining(s.runs, number)
  {
    hide Inv, Step, Remaining;
    var runs, runs' := s.runs, Step(catalog, s, e).runs;
    forall id: RunId | id.Child? && id.number == number && id in runs' && runs'[id].status == Planned
      ensures id in runs && runs[id].status == Planned
    {
      PlannedBefore(catalog, s, e, id);
    }
    ParentStays(catalog, s, e, number);
    FewerPlanned(runs, runs', number);
  }

  lemma FewerPlanned(runs: RunTable, runs': RunTable, number: nat)
    requires Parent(number) in runs && Parent(number) in runs'
    requires runs'[Parent(number)].status == Running ==> runs[Parent(number)].status == Running
    requires forall id: RunId | id.Child? && id.number == number && id in runs' && runs'[id].status == Planned ::
               id in runs && runs[id].status == Planned
    ensures Remaining(runs', number) <= Remaining(runs, number)
  {
    assert PlannedOf(runs', number) <= PlannedOf(runs, number);
    Subset(PlannedOf(runs', number), PlannedOf(runs, number));
  }

  lemma {:induction false} Subset(a: set<RunId>, b: set<RunId>)
    requires a <= b
    ensures |a| <= |b|
  {
    if a != {} {
      var x :| x in a;
      Subset(a - {x}, b - {x});
    }
  }

  lemma PlannedBefore(catalog: Catalog, s: System, e: Event, id: RunId)
    requires Inv(catalog, s) && id.Child? && Parent(id.number) in s.runs
    requires id in Step(catalog, s, e).runs && Step(catalog, s, e).runs[id].status == Planned
    ensures id in s.runs && s.runs[id].status == Planned
  {
    hide Inv, Aggregate, FirstPlanned, HasActiveChild, Ensured;
    FreshRow(catalog, s, Parent(id.number));
    assert id in ChildIds(catalog, s.nextRun) ==> id.number == s.nextRun;
    if e.ERecoverStale? && e.run in s.runs && e.run.Parent? {
      InvParents(catalog, s);
      var r := s.runs[e.run].(owner := Some(s.nextOwner), heartbeat := Some(e.now));
      if IsStale(s.runs[e.run], e.lease, e.now) {
        RowKeeps(catalog, s, e.run, r);
        InvParents(catalog, s.(runs := s.runs[e.run := r]));
        NothingToEnsure(catalog, s.runs[e.run := r], e.run.number);
      }
    }
    if e.EReconcile? && id in s.runs { ReconciledRow(catalog, s.runs, e.number, e.exact, e.enabled, e.now, id); }
  }

  lemma ParentStays(catalog: Catalog, s: System, e: Event, number: nat)
    requires Inv(catalog, s) && Parent(number) in s.runs
    ensures Parent(number) in Step(catalog, s, e).runs
    ensures Step(catalog, s, e).runs[Parent(number)].status == Running ==> s.runs[Parent(number)].status == Running
  {
    hide Inv, Aggregate, FirstPlanned, HasActiveChild;
    FreshRow(catalog, s, Parent(number));
    if e.ERecoverStale? && e.run.Parent? { EnsuredKeeps(catalog, s.runs, e.run, Parent(number)); }
  }

  // ---------------------------------------------------------------------------------------------------------
  // The loop amid others
  // ---------------------------------------------------------------------------------------------------------

  function After(catalog: Catalog, s: System, events: seq<Event>): System {
    if events == [] then s else Step(catalog, After(catalog, s, events[..|events| - 1]), events[|events| - 1])
  }

  lemma {:induction false} AfterKeeps(catalog: Catalog, s: System, events: seq<Event>, number: nat)
    requires Inv(catalog, s)
    ensures Inv(catalog, After(catalog, s, events))
    ensures Parent(number) in s.runs ==>
              && Parent(number) in After(catalog, s, events).runs
              && Remaining(After(catalog, s, events).runs, number) <= Remaining(s.runs, number)
  {
    hide Inv, Step, Remaining;
    if events != [] {
      var before, last := events[..|events| - 1], events[|events| - 1];
      AfterKeeps(catalog, s, before, number);
      StepKeeps(catalog, After(catalog, s, before), last);
      if Parent(number) in s.runs {
        NothingAdds(catalog, After(catalog, s, before), last, number);
        ParentStays(catalog, After(catalog, s, before), last, number);
      }
    }
  }

  class Coordinator {
    const catalog: Catalog
    var system: System

    constructor (catalog: Catalog)
      ensures this.catalog == catalog && system == Runs.Initial
    {
      this.catalog, system := catalog, Runs.Initial;
    }

    /** The loop over one owned parent: before its k-th transaction `others(k)` happen, and `enabled(k)` and `now(k)` hold. */
    method ReconcileParent(number: nat, owner: Owner, enabled: nat -> set<string>, now: nat -> Time,
                           others: nat -> seq<Event>)
      returns (lost: bool)
      requires Inv(catalog, system)
      modifies this`system
      ensures Inv(catalog, system)
      ensures lost ==> !OwnedBy(system.runs, Parent(number), owner)
      ensures !lost ==> OwnedBy(system.runs, Parent(number), owner) && HasActiveChild(system.runs, number)
    {
      hide Inv, Remaining, Runs.Reconcile, After;
      var k := 0;
      AfterKeeps(catalog, system, others(k), number);
      system := After(catalog, system, others(k));
      while true
        invariant Inv(catalog, system)
        decreases Remaining(system.runs, number)
      {
        var (runs, r) := Runs.Reconcile(catalog, system.runs, number, Some(owner), enabled(k), now(k));
        StepKeeps(catalog, system, EReconcile(number, Some(owner), enabled(k), now(k)));
        ReconcileAnswers(catalog, system.runs, number, owner, enabled(k), now(k));
        ghost var before := system.runs;
        system := system.(runs := runs);
        match r {
          case OwnershipLost => return true;
          case Unchanged => return false;
          case Changed =>
            ChangeLowers(catalog, before, number, Some(owner), enabled(k), now(k));
            k := k + 1;
            AfterKeeps(catalog, system, others(k), number);
            system := After(catalog, system, others(k));
        }
      }
    }
  }

  lemma ReconcileAnswers(catalog: Catalog, runs: RunTable, number: nat, owner: Owner, enabled: set<string>, now: Time)
    ensures var (runs', r) := Runs.Reconcile(catalog, runs, number, Some(owner), enabled, now);
            match r
            case OwnershipLost => !OwnedBy(runs', Parent(number), owner)
            case Unchanged => OwnedBy(runs', Parent(number), owner) && HasActiveChild(runs', number)
            case Changed => Parent(number) in runs'
  {
    hide FirstPlanned, Aggregate, HasActiveChild, Advance;
    if Runs.Reconcile(catalog, runs, number, Some(owner), enabled, now).1 == Changed {
      ChangeLowers(catalog, runs, number, Some(owner), enabled, now);
    }
  }
}
