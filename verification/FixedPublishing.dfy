/** Runs and Fixed loads together: tables change with a success. */
module FixedPublishing {
  // Final tables change only in the transaction in which the load's own run, claimed by the promoting executor,
  // succeeds.

  import opened Options
  import opened Runs
  import RunInvariants
  import RunEvents
  import RunExecution
  import RunSteps
  import L = FixedLedger
  import FixedRuns
  import FixedStaging

  /** `runOf` is the run each load was begun for. */
  datatype State = State(system: System, tables: L.State, runOf: map<L.LoadId, RunId>)

  /** What happens to the run rows, to the loads, and to both at once. */
  datatype Event =
    | ERuns(work: Runs.Event)
    | EBegin(run: RunId, contract: FixedStaging.Contract, keys: seq<string>, members: map<string, FixedStaging.Member>)
    | ELoads(event: L.Event)
    | EPromote(load: L.LoadId, executor: Owner, heard: bool)

  const Initial := State(Runs.Initial, L.Initial, map[])

  /** The executor works on a run of this job. */
  predicate WorksOn(job: L.Job, s: State, owner: Owner) {
    && owner in s.system.executors
    && s.system.executors[owner].run in s.system.runs
    && s.system.runs[s.system.executors[owner].run].job == job.def.key
  }

  function FenceOf(catalog: Catalog, s: State, load: L.LoadId, owner: Owner): L.Fence
    requires owner in s.system.executors
  {
    L.Fenced(load in s.runOf && s.runOf[load] == s.system.executors[owner].run, Publishes(catalog, s.system, owner))
  }

  /** One transaction promotes the load and finishes the run. */
  ghost function PromoteStep(catalog: Catalog, job: L.Job, s: State, load: L.LoadId, owner: Owner, heard: bool): State {
    if !WorksOn(job, s, owner) then s
    else
      var (tables, outcome) := L.Promote(job, s.tables, load, FenceOf(catalog, s, load, owner));
      if outcome != L.Published && outcome != L.Replayed then s
      else s.(tables := tables, system := Runs.Step(catalog, s.system, EPublish(owner, heard)))
  }

  ghost function Step(catalog: Catalog, job: L.Job, s: State, e: Event): State {
    match e
    case ERuns(event) =>
      if event.EPublish? && WorksOn(job, s, event.executor) then s
      else s.(system := Runs.Step(catalog, s.system, event))
    case EBegin(run, contract, keys, members) =>
      var tables := L.Step(job, s.tables, L.EBegin(contract, keys, members));
      if run !in s.system.runs || !IsExecutable(run) || tables == s.tables then s
      else s.(tables := tables, runOf := s.runOf[s.tables.next := run])
    case ELoads(event) =>
      if event.EBegin? || event.EPromote? then s else s.(tables := L.Step(job, s.tables, event))
    case EPromote(load, owner, heard) => PromoteStep(catalog, job, s, load, owner, heard)
  }

  ghost function Run(catalog: Catalog, job: L.Job, events: seq<Event>): State {
    if events == [] then Initial else Step(catalog, job, Run(catalog, job, events[..|events| - 1]), events[|events| - 1])
  }

  // ---------------------------------------------------------------------------------------------------------
  // The invariant
  // ---------------------------------------------------------------------------------------------------------

  /** A load's run exists, and has succeeded if the load is published. */
  ghost predicate LoadOk(s: State, id: L.LoadId)
    requires id in s.tables.loads
  {
    && id in s.runOf
    && s.runOf[id] in s.system.runs && IsExecutable(s.runOf[id])
    && (L.IsPublished(s.tables.loads[id]) ==> s.system.runs[s.runOf[id]].status == Succeeded)
  }

  ghost predicate Inv(catalog: Catalog, job: L.Job, s: State) {
    && RunInvariants.Inv(catalog, s.system)
    && L.Inv(job, s.tables)
    && (forall id {:trigger LoadOk(s, id)} | id in s.tables.loads :: LoadOk(s, id))
  }

  /** Executable runs stay with their job. */
  lemma RowStays(catalog: Catalog, s: System, e: Runs.Event, id: RunId)
    requires RunInvariants.Inv(catalog, s) && id in s.runs && IsExecutable(id)
    ensures id in Runs.Step(catalog, s, e).runs && Runs.Step(catalog, s, e).runs[id].job == s.runs[id].job
  {
    hide RunInvariants.Inv, Aggregate, FirstPlanned, HasActiveChild, ActiveJob, Canonical, IsStale, Reconcile, Publishes;
    RunExecution.FreshRow(catalog, s, id);
    if e.ERecoverStale? && e.run.Parent? {
      RunSteps.InvParents(catalog, s);
      RunExecution.EnsuredKeeps(catalog, s.runs, e.run, id);
    }
    if e.EReconcile? { RunExecution.ReconciledRow(catalog, s.runs, e.number, e.exact, e.enabled, e.now, id); }
  }

  /** And a success stays a success. */
  lemma SuccessStays(catalog: Catalog, s: System, e: Runs.Event, id: RunId)
    requires RunInvariants.Inv(catalog, s) && id in s.runs && IsExecutable(id)
    ensures id in Runs.Step(catalog, s, e).runs && Runs.Step(catalog, s, e).runs[id].job == s.runs[id].job
    ensures s.runs[id].status == Succeeded ==> Runs.Step(catalog, s, e).runs[id].status == Succeeded
  {
    hide RunInvariants.Inv, Runs.Step;
    RowStays(catalog, s, e, id);
    if s.runs[id].status == Succeeded { RunExecution.EndedStep(catalog, s, e, id); }
  }

  lemma RunsKeep(catalog: Catalog, job: L.Job, s: State, e: Runs.Event)
    requires Inv(catalog, job, s)
    ensures Inv(catalog, job, s.(system := Runs.Step(catalog, s.system, e)))
  {
    hide RunInvariants.Inv, L.Inv, Runs.Step;
    var s' := s.(system := Runs.Step(catalog, s.system, e));
    RunEvents.StepKeeps(catalog, s.system, e);
    forall id | id in s'.tables.loads ensures LoadOk(s', id) {
      assert LoadOk(s, id);
      SuccessStays(catalog, s.system, e, s.runOf[id]);
    }
  }

  /** Begun loads are unpublished, and other work publishes nothing. */
  lemma LoadsStep(job: L.Job, s: L.State, e: L.Event)
    requires L.Inv(job, s)
    ensures var s' := L.Step(job, s, e);
            && (!e.EPromote? ==> s'.final == s.final && s'.ledger == s.ledger)
            && s.loads.Keys <= s'.loads.Keys
            && (e.EBegin? && s' != s ==> s'.loads.Keys == s.loads.Keys + {s.next} && !L.IsPublished(s'.loads[s.next]))
            && (!e.EBegin? ==> s'.loads.Keys == s.loads.Keys)
            && (forall id <- s.loads :: !(e.EPromote? && id == e.load) ==>
                  L.IsPublished(s'.loads[id]) == L.IsPublished(s.loads[id]))
  {
    hide L.Validates, L.IsComplete, L.IsStale, L.IsReplay, FixedRuns.Step, FixedRuns.Created;
    forall id | id in s.loads ensures id < s.next { L.PublishedAt(job, s, id); }
    if e.EWork? && e.load in s.loads {
      FixedTablesWork(job, s.loads[e.load], e.work);
    }
  }

  lemma FixedTablesWork(job: L.Job, load: L.Load, work: FixedRuns.Event)
    ensures L.IsPublished(load.(system := FixedRuns.Step(L.PlanOf(job, load), load.system, work))) == L.IsPublished(load)
  {
    L.WorkKeepsRest(L.PlanOf(job, load), load.system, work);
  }

  lemma LoadsKeep(catalog: Catalog, job: L.Job, s: State, e: L.Event)
    requires Inv(catalog, job, s) && !e.EBegin? && !e.EPromote?
    ensures Inv(catalog, job, s.(tables := L.Step(job, s.tables, e)))
  {
    hide RunInvariants.Inv, L.Inv, L.Step, L.IsPublished;
    L.StepKeeps(job, s.tables, e);
    LoadsStep(job, s.tables, e);
    var s' := s.(tables := L.Step(job, s.tables, e));
    forall id | id in s'.tables.loads ensures LoadOk(s', id) { assert LoadOk(s, id); }
  }

  lemma BeginKeeps(catalog: Catalog, job: L.Job, s: State, e: Event)
    requires Inv(catalog, job, s) && e.EBegin?
    ensures Inv(catalog, job, Step(catalog, job, s, e))
  {
    hide RunInvariants.Inv, L.Inv, L.Step, L.IsPublished;
    var begin := L.EBegin(e.contract, e.keys, e.members);
    L.StepKeeps(job, s.tables, begin);
    LoadsStep(job, s.tables, begin);
    var s' := Step(catalog, job, s, e);
    forall id | id in s.tables.loads ensures id < s.tables.next { NextIsNew(job, s.tables, id); }
    forall id | id in s'.tables.loads ensures LoadOk(s', id) {
      if id in s.tables.loads { assert LoadOk(s, id); }
    }
  }

  lemma NextIsNew(job: L.Job, s: L.State, id: L.LoadId)
    requires L.Inv(job, s) && id in s.loads
    ensures id < s.next
  {
    L.PublishedAt(job, s, id);
  }

  /** A promotion that goes through is the load's run's own, still running uncancelled, and makes it succeed. */
  lemma PromotionSucceeds(catalog: Catalog, job: L.Job, s: State, load: L.LoadId, owner: Owner, heard: bool)
    requires Inv(catalog, job, s) && WorksOn(job, s, owner)
    requires L.Promote(job, s.tables, load, FenceOf(catalog, s, load, owner)).1 in {L.Published, L.Replayed}
    ensures load in s.tables.loads && load in s.runOf && s.runOf[load] == s.system.executors[owner].run
    ensures var r, r' := s.system.runs[s.runOf[load]], PromoteStep(catalog, job, s, load, owner, heard).system.runs;
            && r.status == Running && r.owner == Some(owner) && !r.cancel
            && s.runOf[load] in r' && r'[s.runOf[load]].status == Succeeded
  {
    hide RunInvariants.Inv, L.Inv, L.Validates, L.IsComplete, L.IsStale, L.IsReplay, L.Replaced;
  }

  lemma PromoteKeeps(catalog: Catalog, job: L.Job, s: State, load: L.LoadId, owner: Owner, heard: bool)
    requires Inv(catalog, job, s)
    ensures Inv(catalog, job, PromoteStep(catalog, job, s, load, owner, heard))
  {
    hide RunInvariants.Inv, L.Inv, L.Promote, L.IsPublished, Runs.Step;
    var s' := PromoteStep(catalog, job, s, load, owner, heard);
    if s' != s {
      var fence := FenceOf(catalog, s, load, owner);
      PromotionSucceeds(catalog, job, s, load, owner, heard);
      RunEvents.StepKeeps(catalog, s.system, EPublish(owner, heard));
      PromoteIsStep(job, s.tables, load, fence);
      L.StepKeeps(job, s.tables, L.EPromote(load, fence));
      LoadsStep(job, s.tables, L.EPromote(load, fence));
      forall id | id in s'.tables.loads ensures LoadOk(s', id) {
        assert LoadOk(s, id);
        SuccessStays(catalog, s.system, EPublish(owner, heard), s.runOf[id]);
      }
    }
  }

  lemma PromoteIsStep(job: L.Job, s: L.State, load: L.LoadId, fence: L.Fence)
    ensures L.Promote(job, s, load, fence).0 == L.Step(job, s, L.EPromote(load, fence))
  {
    hide L.Promote;
  }

  lemma StepKeeps(catalog: Catalog, job: L.Job, s: State, e: Event)
    requires Inv(catalog, job, s)
    ensures Inv(catalog, job, Step(catalog, job, s, e))
  {
    hide Inv, Runs.Step, L.Step, PromoteStep;
    match e
    case ERuns(event) => RunsKeep(catalog, job, s, event);
    case EBegin(_, _, _, _) => BeginKeeps(catalog, job, s, e);
    case ELoads(event) => if !event.EBegin? && !event.EPromote? { LoadsKeep(catalog, job, s, event); }
    case EPromote(load, owner, heard) => PromoteKeeps(catalog, job, s, load, owner, heard);
  }

  lemma {:induction false} RunKeeps(catalog: Catalog, job: L.Job, events: seq<Event>)
    ensures Inv(catalog, job, Run(catalog, job, events))
  {
    hide Inv, Step;
    if events == [] {
      InitialOk(catalog, job);
    } else {
      RunKeeps(catalog, job, events[..|events| - 1]);
      StepKeeps(catalog, job, Run(catalog, job, events[..|events| - 1]), events[|events| - 1]);
    }
  }

  lemma InitialOk(catalog: Catalog, job: L.Job)
    ensures Inv(catalog, job, Initial)
  {
    RunInvariants.InitialInv(catalog);
    L.InitialOk(job);
  }

  // ---------------------------------------------------------------------------------------------------------
  // Results
  // ---------------------------------------------------------------------------------------------------------

  /** The run of a published load has succeeded. */
  lemma PublishedLoadsSucceeded(catalog: Catalog, job: L.Job, events: seq<Event>, s: State, id: L.LoadId)
    requires s == Run(catalog, job, events) && id in s.tables.loads && L.IsPublished(s.tables.loads[id])
    ensures id in s.runOf && s.runOf[id] in s.system.runs && s.system.runs[s.runOf[id]].status == Succeeded
  {
    hide Run, L.IsPublished;
    RunKeeps(catalog, job, events);
    assert LoadOk(s, id);
  }

  /** The load is published, and was begun for the run. */
  ghost predicate LoadFor(s: State, run: RunId, id: L.LoadId) {
    id in s.tables.loads && id in s.runOf && s.runOf[id] == run && L.IsPublished(s.tables.loads[id])
  }

  ghost predicate HasLoad(s: State, run: RunId) {
    exists id :: LoadFor(s, run, id)
  }

  ghost predicate HasSucceeded(job: L.Job, s: System, run: RunId) {
    run in s.runs && IsExecutable(run) && s.runs[run].job == job.def.key && s.runs[run].status == Succeeded
  }

  /** And a succeeded run of the publishing job has published a load of its own. */
  lemma {:induction false} SucceededRunsPublished(catalog: Catalog, job: L.Job, events: seq<Event>, run: RunId)
    requires job.def.key in catalog.publishing && HasSucceeded(job, Run(catalog, job, events).system, run)
    ensures HasLoad(Run(catalog, job, events), run)
  {
    hide Step, Runs.Step, LoadFor;
    if events != [] {
      var before, e := events[..|events| - 1], events[|events| - 1];
      var s := Run(catalog, job, before);
      RunKeeps(catalog, job, before);
      if HasSucceeded(job, s.system, run) {
        SucceededRunsPublished(catalog, job, before, run);
        var id :| LoadFor(s, run, id);
        LoadStays(catalog, job, s, e, run, id);
      } else {
        SuccessPublishes(catalog, job, s, e, run);
      }
    }
  }

  lemma LoadStays(catalog: Catalog, job: L.Job, s: State, e: Event, run: RunId, id: L.LoadId)
    requires Inv(catalog, job, s) && LoadFor(s, run, id)
    ensures LoadFor(Step(catalog, job, s, e), run, id)
  {
    hide Inv, Runs.Step, L.Step, L.Promote, L.IsPublished;
    InvParts(catalog, job, s);
    NextIsNew(job, s.tables, id);
    match e
    case ERuns(_) =>
    case EBegin(_, contract, keys, members) => LoadsStep(job, s.tables, L.EBegin(contract, keys, members));
    case ELoads(event) => LoadsStep(job, s.tables, event);
    case EPromote(load, owner, heard) =>
      if WorksOn(job, s, owner) {
        var fence := FenceOf(catalog, s, load, owner);
        PromoteIsStep(job, s.tables, load, fence);
        LoadsStep(job, s.tables, L.EPromote(load, fence));
        OnlyPublishedChanges(job, s.tables, load, fence);
      }
  }

  /** A run of the job succeeds in the promotion of its load alone. */
  lemma SuccessPublishes(catalog: Catalog, job: L.Job, s: State, e: Event, run: RunId)
    requires Inv(catalog, job, s) && job.def.key in catalog.publishing
    requires !HasSucceeded(job, s.system, run) && HasSucceeded(job, Step(catalog, job, s, e).system, run)
    ensures e.EPromote? && LoadFor(Step(catalog, job, s, e), run, e.load)
  {
    hide Inv, Runs.Step, L.Step, L.Promote, L.IsPublished;
    InvParts(catalog, job, s);
    match e
    case EBegin(_, _, _, _) =>
    case ELoads(_) =>
    case ERuns(event) =>
      SuccessIsLogged(catalog, s.system, event, run);
      SuccessStays(catalog, s.system, event, run);
    case EPromote(load, owner, heard) =>
      SuccessIsLogged(catalog, s.system, EPublish(owner, heard), run);
      SuccessStays(catalog, s.system, EPublish(owner, heard), run);
      PromotionSucceeds(catalog, job, s, load, owner, heard);
      PromotedIsPublished(job, s.tables, load, FenceOf(catalog, s, load, owner));
      assert LoadOk(s, load);
  }

  lemma PromotedIsPublished(job: L.Job, s: L.State, load: L.LoadId, fence: L.Fence)
    requires L.Promote(job, s, load, fence).1 in {L.Published, L.Replayed}
    ensures load in L.Promote(job, s, load, fence).0.loads && L.IsPublished(L.Promote(job, s, load, fence).0.loads[load])
  {
    hide L.Validates, L.IsComplete, L.IsStale, L.Rows, L.Outside, L.SlotsOf;
  }

  /** A new success of a publishing job is logged as a publication by the executor of the run. */
  lemma SuccessIsLogged(catalog: Catalog, s: System, e: Runs.Event, run: RunId)
    requires RunInvariants.Inv(catalog, s)
    requires var s' := Runs.Step(catalog, s, e);
             && run in s'.runs && IsExecutable(run) && s'.runs[run].status == Succeeded
             && s'.runs[run].job in catalog.publishing
    ensures run in s.runs
    ensures s.runs[run].status == Succeeded
         || (e.EPublish? && e.executor in s.executors && s.executors[e.executor].run == run)
  {
    hide RunInvariants.Inv, Runs.Step;
    var s' := Runs.Step(catalog, s, e);
    RunEvents.StepKeeps(catalog, s, e);
    LoggedAt(catalog, s, run);
    LoggedAt(catalog, s', run);
    LogStep(catalog, s, e, run);
  }

  lemma LoggedAt(catalog: Catalog, s: System, run: RunId)
    requires RunInvariants.Inv(catalog, s)
    ensures RunInvariants.Of(s.published, run)
         == if run in s.runs then RunInvariants.Expected(catalog, run, s.runs[run]) else []
    ensures run in s.runs && IsExecutable(run) && s.runs[run].status == Succeeded ==> s.runs[run].owner.Some?
    ensures forall o <- s.executors :: s.executors[o].run in s.runs
  {
    assert RunInvariants.PublishedOk(catalog, s, run);
    if run in s.runs { assert RunInvariants.RunOk(s, run); }
    forall o <- s.executors ensures s.executors[o].run in s.runs { assert RunInvariants.ExecutorOk(catalog, s, o); }
  }

  lemma LogStep(catalog: Catalog, s: System, e: Runs.Event, run: RunId)
    ensures RunInvariants.Of(Runs.Step(catalog, s, e).published, run) == RunInvariants.Of(s.published, run)
         || (e.EPublish? && e.executor in s.executors && s.executors[e.executor].run == run)
  {
    hide RecoverStale, Reconcile, RequestCancellation, Submit, CreateRunAll, Finish;
    var s' := Runs.Step(catalog, s, e);
    if s'.published != s.published { assert s'.published[..|s'.published| - 1] == s.published; }
  }

  /**
   Final tables and their ledger change only in a promotion by the executor that claimed the load's run, while that run
   is running and its cancellation was not requested, and in the same transaction the run becomes succeeded.
  */
  lemma TablesChangeWithSuccess(catalog: Catalog, job: L.Job, events: seq<Event>, s: State, e: Event)
    requires s == Run(catalog, job, events)
    requires var s' := Step(catalog, job, s, e);
             s'.tables.final != s.tables.final || s'.tables.ledger != s.tables.ledger
    ensures e.EPromote? && e.load in s.runOf && s.runOf[e.load] in s.system.runs
    ensures var r, s' := s.runOf[e.load], Step(catalog, job, s, e);
            && s.system.runs[r].status == Running && s.system.runs[r].owner == Some(e.executor) && !s.system.runs[r].cancel
            && r in s'.system.runs && s'.system.runs[r].status == Succeeded
            && e.load in s'.tables.loads && L.IsPublished(s'.tables.loads[e.load])
  {
    hide Run, Inv, Runs.Step, L.Step, L.Promote, L.IsPublished;
    RunKeeps(catalog, job, events);
    InvParts(catalog, job, s);
    match e
    case EBegin(_, contract, keys, members) => LoadsStep(job, s.tables, L.EBegin(contract, keys, members));
    case ELoads(event) => LoadsStep(job, s.tables, event);
    case ERuns(_) =>
    case EPromote(load, owner, heard) =>
      PromotionSucceeds(catalog, job, s, load, owner, heard);
      assert LoadOk(s, load);
      OnlyPublishedChanges(job, s.tables, load, FenceOf(catalog, s, load, owner));
  }

  lemma InvParts(catalog: Catalog, job: L.Job, s: State)
    requires Inv(catalog, job, s)
    ensures RunInvariants.Inv(catalog, s.system) && L.Inv(job, s.tables)
    ensures forall id {:trigger LoadOk(s, id)} | id in s.tables.loads :: LoadOk(s, id)
  {
  }

  lemma OnlyPublishedChanges(job: L.Job, s: L.State, load: L.LoadId, fence: L.Fence)
    ensures var (s', outcome) := L.Promote(job, s, load, fence);
            if outcome == L.Published then
              && load in s'.loads && L.IsPublished(s'.loads[load])
              && (forall slot <- s'.ledger :: s'.ledger[slot] == load || (slot in s.ledger && s'.ledger[slot] == s.ledger[slot]))
            else s' == s
  {
    hide L.Validates, L.IsComplete, L.IsStale, L.IsReplay, L.Rows, L.Outside, L.SlotsOf;
  }

  /** The run ended, or is to be cancelled. */
  predicate HasEnded(s: State, id: L.LoadId) {
    && id in s.tables.loads && id in s.runOf && s.runOf[id] in s.system.runs
    && (IsTerminal(s.system.runs[s.runOf[id]].status) || s.system.runs[s.runOf[id]].cancel)
  }

  /** Whatever its zombie executors try, a load whose run ended is never published and becomes no slot's authority. */
  lemma {:induction false} EndedLeavesTables(catalog: Catalog, job: L.Job, before: seq<Event>, more: seq<Event>,
                                             id: L.LoadId, slot: L.Slot)
    requires HasEnded(Run(catalog, job, before), id)
    ensures var s, s' := Run(catalog, job, before), Run(catalog, job, before + more);
            && HasEnded(s', id)
            && L.IsPublished(s'.tables.loads[id]) == L.IsPublished(s.tables.loads[id])
            && (slot in s'.tables.ledger && s'.tables.ledger[slot] == id ==>
                  slot in s.tables.ledger && s.tables.ledger[slot] == id)
  {
    hide Run, Step, HasEnded, L.IsPublished;
    RunFurther(catalog, job, before, more);
    if more != [] {
      var n := |more| - 1;
      EndedLeavesTables(catalog, job, before, more[..n], id, slot);
      RunKeeps(catalog, job, before + more[..n]);
      EndedStep(catalog, job, Run(catalog, job, before + more[..n]), more[n], id, slot);
    }
  }

  lemma RunFurther(catalog: Catalog, job: L.Job, before: seq<Event>, more: seq<Event>)
    ensures Run(catalog, job, before + more)
         == if more == [] then Run(catalog, job, before)
            else Step(catalog, job, Run(catalog, job, before + more[..|more| - 1]), more[|more| - 1])
  {
    hide Step;
    if more == [] {
      assert before + more == before;
    } else {
      assert (before + more)[..|before + more| - 1] == before + more[..|more| - 1];
    }
  }

  lemma EndedStep(catalog: Catalog, job: L.Job, s: State, e: Event, id: L.LoadId, slot: L.Slot)
    requires Inv(catalog, job, s) && HasEnded(s, id)
    ensures var s' := Step(catalog, job, s, e);
            && HasEnded(s', id)
            && L.IsPublished(s'.tables.loads[id]) == L.IsPublished(s.tables.loads[id])
            && (slot in s'.tables.ledger && s'.tables.ledger[slot] == id ==>
                  slot in s.tables.ledger && s.tables.ledger[slot] == id)
  {
    hide Inv, Runs.Step, L.Step, L.Promote, L.IsPublished;
    InvParts(catalog, job, s);
    assert LoadOk(s, id);
    match e
    case ERuns(event) => RunExecution.EndedStep(catalog, s.system, event, s.runOf[id]);
    case EBegin(_, contract, keys, members) =>
      LoadsStep(job, s.tables, L.EBegin(contract, keys, members));
      NextIsNew(job, s.tables, id);
    case ELoads(event) => LoadsStep(job, s.tables, event);
    case EPromote(load, owner, heard) =>
      if PromoteStep(catalog, job, s, load, owner, heard) != s {
        var fence := FenceOf(catalog, s, load, owner);
        PromotionSucceeds(catalog, job, s, load, owner, heard);
        RunExecution.EndedStep(catalog, s.system, EPublish(owner, heard), s.runOf[id]);
        PromoteIsStep(job, s.tables, load, fence);
        LoadsStep(job, s.tables, L.EPromote(load, fence));
        OnlyPublishedChanges(job, s.tables, load, fence);
      }
  }
}
