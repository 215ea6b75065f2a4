/**
 The import protocol as a state machine: the tables, the workers that act on them (each holds one claimed attempt,
 some of them zombies whose claim was requeued) and the cleanup candidates already listed. Any event can happen at
 any time, so crashes, lost commits and late statements are runs in which a worker simply stops.
*/
module ImportProtocol {
  import opened Options
  import opened ImportTables

  datatype Phase = Live | Finished | Dead

  /** `seen`, `columns` and `sent` are what the worker read and staged so far. */
  datatype Worker = Worker(
    job: Job,
    seen: Option<DatasetStatus>,
    columns: Option<Columns>,
    ensured: bool,
    sent: seq<Values>,
    phase: Phase)

  datatype System = System(db: Db, workers: map<Key, Worker>, items: set<CleanupItem>)

  const Initial := System(EmptyDb, map[], {})

  datatype Event =
    | ESubmit(input: Submission)
    | EClaim(importId: Id, owner: Owner, now: Time)
    | EHeartbeat(worker: Key, now: Time)
    | ERequeueStale(staleAfter: nat, now: Time)
    | EReadDataset(worker: Key)
    | EReadColumns(worker: Key)
    | EEnsure(worker: Key, crash: bool)
    | EInsert(worker: Key, batch: seq<(nat, Values)>, acknowledged: bool)
    | EStop(worker: Key)
    | EFail(worker: Key, now: Time)
    | EPublish(worker: Key, now: Time)
    | EUpdate(dataset: Id, revision: nat, name: string, wellFormed: bool)
    | EArchive(dataset: Id, revision: nat)
    | EListCleanup(grace: nat, now: Time)
    | ECleanup(item: CleanupItem, doomed: set<nat>)

  function ValuesOf(batch: seq<(nat, Values)>): seq<Values> {
    seq(|batch|, n requires 0 <= n < |batch| => batch[n].1)
  }

  function WithWorker(s: System, k: Key, w: Worker): System {
    s.(workers := s.workers[k := w])
  }

  function ClaimStep(s: System, i: Id, owner: Owner, now: Time): System {
    var (db, job) := Claim(s.db, i, owner, now);
    if job.None? then s
    else
      var k := Key(job.value.importId, job.value.attempt);
      System(db, s.workers[k := Worker(job.value, None, None, false, [], Live)], s.items)
  }

  function ReadDatasetStep(s: System, k: Key): System
    requires k in s.workers
  {
    var w := s.workers[k];
    if w.phase != Live || w.job.dataset !in s.db.datasets || w.columns.Some? then s
    else
      var dataset := s.db.datasets[w.job.dataset];
      if dataset.status == Archived || dataset.schemaRevision != w.job.schemaRevision then
        WithWorker(s, k, w.(phase := Dead))
      else WithWorker(s, k, w.(seen := Some(dataset.status)))
  }

  function ReadColumnsStep(s: System, k: Key): System
    requires k in s.workers
  {
    var w := s.workers[k];
    if w.phase != Live || w.job.dataset !in s.db.datasets || w.seen.None? || w.ensured then s
    else WithWorker(s, k, w.(columns := Some(s.db.datasets[w.job.dataset].columns)))
  }

  function EnsureStep(s: System, k: Key, crash: bool): System
    requires k in s.workers
  {
    var w := s.workers[k];
    if w.phase != Live || w.columns.None? || w.seen.None? || w.ensured then s
    else
      var (db, ok) := Ensure(s.db, w.job.dataset, w.job.importId, w.seen.value, w.columns.value, crash);
      s.(db := db, workers := s.workers[k := if ok then w.(ensured := true) else w.(phase := Dead)])
  }

  /**
   One INSERT of the worker's stream. A dead worker's statement may still arrive. An unacknowledged one reaches the
   table while the worker gives up; after an acknowledged one the worker checks that it still owns the claim.
  */
  function InsertStep(s: System, k: Key, batch: seq<(nat, Values)>, acknowledged: bool): System
    requires k in s.workers
  {
    var w := s.workers[k];
    if !w.ensured || w.phase == Finished || |w.sent| + |batch| > MAX_DATA_ROWS then s
    else
      var db := Insert(s.db, w.job.dataset, k, batch);
      var w' :=
        if w.phase == Dead || !acknowledged || w.job.dataset !in s.db.tables then w.(phase := Dead)
        else w.(sent := w.sent + ValuesOf(batch), phase := if Owned(db, w.job) then Live else Dead);
      s.(db := db, workers := s.workers[k := w'])
  }

  predicate Publishes(s: System, k: Key, now: Time) {
    && k in s.workers
    && s.workers[k].phase == Live
    && s.workers[k].ensured
    && Publish(s.db, s.workers[k].job, |s.workers[k].sent|, now).1 == Done
  }

  function PublishStep(s: System, k: Key, now: Time): System
    requires k in s.workers
  {
    var w := s.workers[k];
    if w.phase != Live || !w.ensured then s
    else
      var (db, outcome) := Publish(s.db, w.job, |w.sent|, now);
      s.(db := db, workers := s.workers[k := w.(phase := if outcome == Done then Finished else Dead)])
  }

  function StopStep(s: System, k: Key): System
    requires k in s.workers
  {
    if s.workers[k].phase != Live then s else WithWorker(s, k, s.workers[k].(phase := Dead))
  }

  function FailStep(s: System, k: Key, now: Time): System
    requires k in s.workers
  {
    StopStep(s.(db := Fail(s.db, s.workers[k].job, now).0), k)
  }

  function WorkerStep(s: System, k: Key, e: Event): System
    requires k in s.workers
  {
    match e
    case EHeartbeat(_, now) => s.(db := Heartbeat(s.db, s.workers[k].job, now).0)
    case EReadDataset(_) => ReadDatasetStep(s, k)
    case EReadColumns(_) => ReadColumnsStep(s, k)
    case EEnsure(_, crash) => EnsureStep(s, k, crash)
    case EInsert(_, batch, acknowledged) => InsertStep(s, k, batch, acknowledged)
    case EStop(_) => StopStep(s, k)
    case EFail(_, now) => FailStep(s, k, now)
    case EPublish(_, now) => PublishStep(s, k, now)
    case _ => s
  }

  function Step(s: System, e: Event): System {
    match e
    case ESubmit(input) => s.(db := Submit(s.db, input).0)
    case EClaim(i, owner, now) => ClaimStep(s, i, owner, now)
    case ERequeueStale(staleAfter, now) => s.(db := RequeueStale(s.db, staleAfter, now))
    case EUpdate(d, revision, name, wellFormed) => s.(db := UpdateMetadata(s.db, d, revision, name, wellFormed).0)
    case EArchive(d, revision) => s.(db := Archive(s.db, d, revision).0)
    case EListCleanup(grace, now) => s.(items := s.items + CleanupCandidates(s.db, grace, now))
    case ECleanup(item, doomed) => if item in s.items then s.(db := CleanupRows(s.db, item, doomed)) else s
    case _ => if e.worker in s.workers then WorkerStep(s, e.worker, e) else s
  }

  function Run(events: seq<Event>): System {
    if events == [] then Initial else Step(Run(events[..|events| - 1]), events[|events| - 1])
  }

  // ---------------------------------------------------------------------------------------------------------
  // The atomic list the view is meant to be
  // ---------------------------------------------------------------------------------------------------------

  datatype Publication = Publication(dataset: Id, mode: Mode, records: seq<Values>)

  /** The publication an event makes: the whole stream its worker staged, if its transaction commits. */
  function EffectOf(s: System, e: Event): Option<Publication> {
    if e.EPublish? && Publishes(s, e.worker, e.now) then
      var w := s.workers[e.worker];
      Some(Publication(w.job.dataset, w.job.mode, w.sent))
    else None
  }

  function Apply(list: seq<Values>, d: Id, p: Option<Publication>): seq<Values> {
    if p.None? || p.value.dataset != d then list
    else if p.value.mode == Replace then p.value.records
    else list + p.value.records
  }

  /** The list obtained by the run's publications alone. */
  function Published(events: seq<Event>, d: Id): seq<Values> {
    if events == [] then []
    else
      var before := events[..|events| - 1];
      Apply(Published(before, d), d, EffectOf(Run(before), events[|events| - 1]))
  }
}
