/**
 Ingestion runs (internal/ingestionrun/repository.go) and the executors that claim them
 (internal/coordinator/coordinator.go): each transaction is one atomic function on the run rows.
*/
module Runs {
  import opened Options

  type Owner = nat
  type Time = int

  /** A run by its identity: a single job, a Run All parent, or the child at a position of a parent. */
  datatype RunId = Job(number: nat) | Parent(number: nat) | Child(number: nat, position: nat)

  datatype Status =
    | Planned | Queued | Running
    | Succeeded | Failed | Cancelled | Skipped | Abandoned | Completed | CompletedWithSkips

  datatype Run = Run(job: string, status: Status, owner: Option<Owner>, heartbeat: Option<Time>, cancel: bool)

  type RunTable = map<RunId, Run>

  /** The jobs of a Run All in order, and those of them whose result is published with their success. */
  datatype Catalog = Catalog(jobs: seq<string>, publishing: set<string>)

  predicate IsTerminal(status: Status) {
    status != Planned && status != Queued && status != Running
  }

  predicate IsActive(status: Status) {
    status == Queued || status == Running
  }

  predicate IsExecutable(id: RunId) { !id.Parent? }

  predicate ActiveJob(runs: RunTable, job: string) {
    exists id | id in runs :: IsExecutable(id) && runs[id].job == job && IsActive(runs[id].status)
  }

  function RunningJobs(runs: RunTable): nat {
    |set id | id in runs && IsExecutable(id) && runs[id].status == Running|
  }

  // ---------------------------------------------------------------------------------------------------------
  // Submission and claims
  // ---------------------------------------------------------------------------------------------------------

  function Submit(catalog: Catalog, runs: RunTable, number: nat, job: string): (RunTable, bool) {
    if job !in catalog.jobs || ActiveJob(runs, job) || Job(number) in runs then (runs, false)
    else (runs[Job(number) := Run(job, Queued, None, None, false)], true)
  }

  function PlannedChildren(catalog: Catalog, number: nat): RunTable {
    map k: RunId | k in ChildIds(catalog, number) && 1 <= k.position <= |catalog.jobs| ::
      Run(catalog.jobs[k.position - 1], Planned, None, None, false)
  }

  function ChildIds(catalog: Catalog, number: nat): (r: set<RunId>)
    ensures forall id <- r :: id.Child? && id.number == number && 1 <= id.position <= |catalog.jobs|
  {
    set k: nat | 1 <= k <= |catalog.jobs| :: Child(number, k)
  }

  function CreateRunAll(catalog: Catalog, runs: RunTable, number: nat, owner: Owner, now: Time): RunTable {
    runs[Parent(number) := Run("", Running, Some(owner), Some(now), false)] + PlannedChildren(catalog, number)
  }

  predicate Claimable(runs: RunTable, id: RunId, limit: nat) {
    id in runs && IsExecutable(id) && runs[id].status == Queued && RunningJobs(runs) < limit
  }

  function Claim(runs: RunTable, id: RunId, owner: Owner, limit: nat, now: Time): RunTable {
    if !Claimable(runs, id, limit) then runs
    else runs[id := runs[id].(status := Running, owner := Some(owner), heartbeat := Some(now))]
  }

  predicate OwnedBy(runs: RunTable, id: RunId, owner: Owner) {
    id in runs && runs[id].status == Running && runs[id].owner == Some(owner)
  }

  function Heartbeat(runs: RunTable, id: RunId, owner: Owner, now: Time): RunTable {
    if !OwnedBy(runs, id, owner) || !IsExecutable(id) then runs else runs[id := runs[id].(heartbeat := Some(now))]
  }

  /** The terminal update of an executor, alone or inside the transaction that publishes its data. */
  function Finish(runs: RunTable, id: RunId, owner: Owner, status: Status): (RunTable, bool) {
    if status != Succeeded && status != Failed && status != Cancelled then (runs, false)
    else if !OwnedBy(runs, id, owner) || (status == Succeeded && runs[id].cancel) then (runs, false)
    else (runs[id := runs[id].(status := status)], true)
  }

  // ---------------------------------------------------------------------------------------------------------
  // Recovery and cancellation
  // ---------------------------------------------------------------------------------------------------------

  predicate Canonical(catalog: Catalog, runs: RunTable, number: nat) {
    forall id | id in runs :: id.Child? && id.number == number ==>
      1 <= id.position <= |catalog.jobs| && catalog.jobs[id.position - 1] == runs[id].job
  }

  function Ensured(catalog: Catalog, runs: RunTable, number: nat): RunTable {
    PlannedChildren(catalog, number) + runs
  }

  predicate IsStale(r: Run, lease: nat, now: Time) {
    r.status == Running && r.owner.Some? && r.heartbeat.Some? && r.heartbeat.value < now - lease
  }

  function RecoverStale(catalog: Catalog, runs: RunTable, id: RunId, lease: nat, now: Time, owner: Owner): RunTable {
    if id !in runs || !IsStale(runs[id], lease, now) then runs
    else match id
      case Parent(number) =>
        if !Canonical(catalog, runs, number) then runs
        else Ensured(catalog, runs[id := runs[id].(owner := Some(owner), heartbeat := Some(now))], number)
      case _ => runs[id := runs[id].(status := Abandoned)]
  }

  function RecoverAbandoned(runs: RunTable, id: RunId, owner: Owner, heartbeat: Time): RunTable {
    if !OwnedBy(runs, id, owner) || runs[id].heartbeat != Some(heartbeat) then runs
    else runs[id := runs[id].(status := Abandoned)]
  }

  function CancelRow(r: Run): Run {
    if r.status == Planned || r.status == Queued then r.(status := Cancelled, cancel := true)
    else if r.status == Running then r.(cancel := true)
    else r
  }

  function RequestCancellation(runs: RunTable, id: RunId): RunTable {
    if id !in runs || IsTerminal(runs[id].status) then runs
    else match id
      case Parent(number) =>
        map k | k in runs ::
          if k == id then runs[k].(cancel := true)
          else if k.Child? && k.number == number then CancelRow(runs[k])
          else runs[k]
      case _ => runs[id := CancelRow(runs[id])]
  }

  // ---------------------------------------------------------------------------------------------------------
  // Driving a Run All parent
  // ---------------------------------------------------------------------------------------------------------

  predicate HasActiveChild(runs: RunTable, number: nat) {
    exists id | id in runs :: id.Child? && id.number == number && IsActive(runs[id].status)
  }

  predicate IsPlanned(runs: RunTable, number: nat, position: nat) {
    Child(number, position) in runs && runs[Child(number, position)].status == Planned
  }

  /** The lowest planned position from `k` on. */
  function FirstPlanned(runs: RunTable, number: nat, k: nat, last: nat): Option<nat>
    decreases last + 1 - k
  {
    if k > last then None
    else if IsPlanned(runs, number, k) then Some(k)
    else FirstPlanned(runs, number, k + 1, last)
  }

  predicate SomeChild(runs: RunTable, number: nat, statuses: set<Status>) {
    exists id | id in runs :: id.Child? && id.number == number && runs[id].status in statuses
  }

  function Aggregate(runs: RunTable, number: nat): Status {
    if SomeChild(runs, number, {Failed, Cancelled, Abandoned}) then Failed
    else if SomeChild(runs, number, {Skipped}) then CompletedWithSkips
    else Completed
  }

  function WithStatus(runs: RunTable, id: RunId, status: Status): RunTable
    requires id in runs
  {
    runs[id := runs[id].(status := status)]
  }

  /** The step for a parent that is running, owned and without active child. */
  function Advance(catalog: Catalog, runs: RunTable, number: nat, enabled: set<string>): RunTable
    requires Parent(number) in runs
  {
    if runs[Parent(number)].cancel then WithStatus(runs, Parent(number), Cancelled)
    else
      match FirstPlanned(runs, number, 1, |catalog.jobs|)
      case None => WithStatus(runs, Parent(number), Aggregate(runs, number))
      case Some(k) =>
        var child := Child(number, k);
        if child !in runs then runs
        else if runs[child].job !in enabled || ActiveJob(runs, runs[child].job) then WithStatus(runs, child, Skipped)
        else WithStatus(runs, child, Queued)
  }

  datatype Reconciled = Changed | Unchanged | OwnershipLost

  /** `exact` names the caller's ownership; without it any parent that has no active child may be taken. */
  function Reconcile(catalog: Catalog, runs: RunTable, number: nat, exact: Option<Owner>, enabled: set<string>, now: Time)
    : (RunTable, Reconciled)
  {
    var id := Parent(number);
    if id !in runs || runs[id].status != Running || (exact.Some? && runs[id].owner != exact) then
      (runs, if exact.Some? then OwnershipLost else Unchanged)
    else if runs[id].owner.None? || (exact.None? && HasActiveChild(runs, number)) then (runs, Unchanged)
    else
      var seen := runs[id := runs[id].(heartbeat := Some(now))];
      if HasActiveChild(seen, number) then (seen, Unchanged)
      else (Advance(catalog, seen, number, enabled), Changed)
  }

  // ---------------------------------------------------------------------------------------------------------
  // Executors
  // ---------------------------------------------------------------------------------------------------------

  datatype Phase = Working | Returned(status: Status) | FallingBack | Finished

  /** `told` says that the executor knows its publication committed. */
  datatype Executor = Executor(run: RunId, told: bool, phase: Phase)

  /** Final tables change only by the publications in `published`, each by an executor for its run. */
  datatype Publication = Publication(run: RunId, owner: Owner)

  datatype System = System(
    runs: RunTable,
    executors: map<Owner, Executor>,
    published: seq<Publication>,
    nextRun: nat,
    nextOwner: Owner)

  const Initial := System(map[], map[], [], 0, 0)

  datatype Event =
    | ESubmit(job: string)
    | ECreateRunAll(now: Time)
    | EClaim(run: RunId, limit: nat, now: Time)
    | EHeartbeat(run: RunId, owner: Owner, now: Time)
    | ERecoverStale(run: RunId, lease: nat, now: Time)
    | ERecoverAbandoned(run: RunId, owner: Owner, heartbeat: Time)
    | ERequestCancellation(run: RunId)
    | EReconcile(number: nat, exact: Option<Owner>, enabled: set<string>, now: Time)
    | EPublish(executor: Owner, heard: bool)
    | ECheckPublished(executor: Owner)
    | EReturn(executor: Owner, status: Status)
    | EFinish(executor: Owner, heard: bool)
    | EFallBack(executor: Owner, heard: bool)

  predicate Publishes(catalog: Catalog, s: System, owner: Owner) {
    && owner in s.executors
    && s.executors[owner].phase == Working
    && s.executors[owner].run in s.runs
    && s.runs[s.executors[owner].run].job in catalog.publishing
    && Finish(s.runs, s.executors[owner].run, owner, Succeeded).1
  }

  function WithExecutor(s: System, owner: Owner, x: Executor): System {
    s.(executors := s.executors[owner := x])
  }

  /** What an executor and the coordinator around it do; the run rows are only changed by fenced statements. */
  function ExecutorStep(catalog: Catalog, s: System, e: Event, owner: Owner): System
    requires owner in s.executors
  {
    var x := s.executors[owner];
    match e
    case EPublish(_, heard) =>
      if !Publishes(catalog, s, owner) then s
      else s.(runs := Finish(s.runs, x.run, owner, Succeeded).0, published := s.published + [Publication(x.run, owner)],
              executors := s.executors[owner := x.(told := x.told || heard)])
    case ECheckPublished(_) =>
      if x.phase != Working || x.run !in s.runs || s.runs[x.run].status != Succeeded then s
      else WithExecutor(s, owner, x.(told := true))
    case EReturn(_, status) =>
      if x.phase != Working || x.run !in s.runs
         || (status == Succeeded && s.runs[x.run].job in catalog.publishing && !x.told) then s
      else WithExecutor(s, owner, x.(phase := Returned(status)))
    case EFinish(_, heard) =>
      if !x.phase.Returned? then s
      else
        var (runs, ok) := Finish(s.runs, x.run, owner, x.phase.status);
        var phase := if !heard then x.phase else if !ok && x.phase.status == Succeeded then FallingBack else Finished;
        s.(runs := runs, executors := s.executors[owner := x.(phase := phase)])
    case EFallBack(_, heard) =>
      if x.phase != FallingBack then s
      else s.(runs := Finish(s.runs, x.run, owner, Cancelled).0,
              executors := s.executors[owner := x.(phase := if heard then Finished else FallingBack)])
    case _ => s
  }

  function Step(catalog: Catalog, s: System, e: Event): System {
    match e
    case ESubmit(job) => s.(runs := Submit(catalog, s.runs, s.nextRun, job).0, nextRun := s.nextRun + 1)
    case ECreateRunAll(now) =>
      s.(runs := CreateRunAll(catalog, s.runs, s.nextRun, s.nextOwner, now), nextRun := s.nextRun + 1,
         nextOwner := s.nextOwner + 1)
    case EClaim(id, limit, now) =>
      if !Claimable(s.runs, id, limit) then s
      else s.(runs := Claim(s.runs, id, s.nextOwner, limit, now),
              executors := s.executors[s.nextOwner := Executor(id, false, Working)], nextOwner := s.nextOwner + 1)
    case EHeartbeat(id, owner, now) => s.(runs := Heartbeat(s.runs, id, owner, now))
    case ERecoverStale(id, lease, now) =>
      s.(runs := RecoverStale(catalog, s.runs, id, lease, now, s.nextOwner), nextOwner := s.nextOwner + 1)
    case ERecoverAbandoned(id, owner, heartbeat) => s.(runs := RecoverAbandoned(s.runs, id, owner, heartbeat))
    case ERequestCancellation(id) => s.(runs := RequestCancellation(s.runs, id))
    case EReconcile(number, exact, enabled, now) =>
      s.(runs := Reconcile(catalog, s.runs, number, exact, enabled, now).0)
    case _ => if e.executor in s.executors then ExecutorStep(catalog, s, e, e.executor) else s
  }

  function Reach(catalog: Catalog, events: seq<Event>): System {
    if events == [] then Initial else Step(catalog, Reach(catalog, events[..|events| - 1]), events[|events| - 1])
  }
}
