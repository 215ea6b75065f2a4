/** The view refines one list, atomically replaced or extended; row_count is its length; the retired stay gone. */
module ImportRuns {
  import opened Options
  import opened ImportTables
  import opened ImportProtocol
  import opened ImportInvariants
  import opened ImportSteps
  import opened ImportWorkerSteps
  import opened ImportPublication

  // ---------------------------------------------------------------------------------------------------------
  // Publish
  // ---------------------------------------------------------------------------------------------------------

  /** Worker `w` of the current attempt `k` may publish `rows` into dataset row `before`, giving `after`. */
  ghost predicate Replaces(m: Import, before: Dataset, after: Dataset, rows: nat) {
    && after.columns == before.columns
    && after.status == Active
    && after.current == Some(m.generation)
    && (m.mode == Replace ==> after.rowCount == rows)
    && (m.mode == Append ==> before.status == Active && before.current == after.current
                             && after.rowCount == before.rowCount + rows <= MAX_DATA_ROWS)
  }

  ghost predicate Succeeds(m: Import, m': Import) {
    && m'.dataset == m.dataset
    && m'.mode == m.mode
    && m'.generation == m.generation
    && m'.attempt == m.attempt
    && m'.status == Succeeded
    && m'.published == Some(m.attempt)
  }

  ghost predicate Commits(s: System, k: Key, w: Worker, db': Db) {
    && k in s.workers
    && s.workers[k] == w
    && w.phase == Live
    && w.ensured
    && IsCurrent(s.db, k)
    && w.job.dataset in s.db.datasets
    && k.importId in db'.imports
    && w.job.dataset in db'.datasets
    && db' == s.db.(imports := db'.imports, datasets := db'.datasets)
    && db'.imports == s.db.imports[k.importId := db'.imports[k.importId]]
    && db'.datasets == s.db.datasets[w.job.dataset := db'.datasets[w.job.dataset]]
    && Succeeds(s.db.imports[k.importId], db'.imports[k.importId])
    && Replaces(s.db.imports[k.importId], s.db.datasets[w.job.dataset], db'.datasets[w.job.dataset], |w.sent|)
  }

  lemma PublishCommits(s: System, k: Key, now: Time)
    requires WorkersOk(s) && Publishes(s, k, now)
    ensures Commits(s, k, s.workers[k], Publish(s.db, s.workers[k].job, |s.workers[k].sent|, now).0)
  {
    assert WorkerOk(s.db, k, s.workers[k]);
  }

  lemma CommittedElsewhere(s: System, k: Key, w: Worker, db': Db, e: Id)
    requires ImportsOk(s.db) && WorkersOk(s) && Commits(s, k, w, db')
    ensures k !in VisibleKeys(s.db, e)
    ensures e != w.job.dataset ==> VisibleKeys(db', e) == VisibleKeys(s.db, e)
  {
    assert WorkerOk(s.db, k, w);
    assert k in VisibleKeys(s.db, e) ==> Shown(s.db, e, k.importId);
    if e != w.job.dataset {
      forall j ensures Shown(db', e, j) <==> Shown(s.db, e, j) {}
    }
  }

  lemma CommittedKeys(s: System, k: Key, w: Worker, db': Db)
    requires ImportsOk(s.db) && GenerationsOk(s.db) && WorkersOk(s) && Commits(s, k, w, db')
    ensures VisibleKeys(db', w.job.dataset)
         == (if w.job.mode == Replace then {} else VisibleKeys(s.db, w.job.dataset)) + {k}
  {
    var d := w.job.dataset;
    assert WorkerOk(s.db, k, w) && GenerationOk(s.db, k.importId);
    assert Shown(db', d, k.importId);
    forall j | j != k.importId ensures Shown(db', d, j) <==> w.job.mode == Append && Shown(s.db, d, j) {
      if j in s.db.imports { assert GenerationOk(s.db, j); }
    }
    forall x: Key
      ensures x in VisibleKeys(db', d) <==> x == k || (w.job.mode == Append && x in VisibleKeys(s.db, d))
    {
      if x in VisibleKeys(db', d) { assert Shown(db', d, x.importId); }
      if x in VisibleKeys(s.db, d) { assert Shown(s.db, d, x.importId); }
    }
  }

  lemma CommittedView(s: System, k: Key, w: Worker, db': Db, e: Id)
    requires ImportsOk(s.db) && GenerationsOk(s.db) && WorkersOk(s) && StagedOk(s) && OrderOk(s)
    requires Commits(s, k, w, db')
    ensures View(db', e) == Apply(View(s.db, e), e, Some(Publication(w.job.dataset, w.job.mode, w.sent)))
  {
    CommittedElsewhere(s, k, w, db', e);
    assert RowsOf(db', e) == RowsOf(s.db, e);
    if e == w.job.dataset {
      CommittedKeys(s, k, w, db');
      assert Select(RowsOf(s.db, e), {k}) == w.sent;
      if w.job.mode == Append {
        SelectExtend(RowsOf(s.db, e), VisibleKeys(s.db, e), k);
      } else {
        assert {} + {k} == {k};
      }
    }
  }

  lemma CommittedCounts(s: System, k: Key, w: Worker, db': Db)
    requires ImportsOk(s.db) && GenerationsOk(s.db) && WorkersOk(s) && StagedOk(s) && OrderOk(s) && CountsOk(s.db)
    requires Commits(s, k, w, db')
    ensures CountsOk(db')
  {
    assert WorkerOk(s.db, k, w);
    forall e | e in db'.datasets ensures CountOk(db', e) {
      assert CountOk(s.db, e);
      CommittedView(s, k, w, db', e);
    }
  }

  lemma CommittedGeneration(s: System, k: Key, w: Worker, db': Db, e: Id, g: Id)
    requires Commits(s, k, w, db') && GenerationOf(s.db, e, g)
    ensures GenerationOf(db', e, g)
  {
  }

  lemma CommittedImports(s: System, k: Key, w: Worker, db': Db)
    requires ImportsOk(s.db) && GenerationsOk(s.db) && WorkersOk(s) && Commits(s, k, w, db')
    ensures ImportsOk(db') && GenerationsOk(db')
  {
    assert WorkerOk(s.db, k, w);
    forall i | i in db'.imports ensures GenerationOk(db', i) {
      assert GenerationOk(s.db, i);
      if db'.imports[i].mode == Append {
        CommittedGeneration(s, k, w, db', db'.imports[i].dataset, db'.imports[i].generation);
      }
    }
  }

  lemma CommittedDatasets(s: System, k: Key, w: Worker, db': Db)
    requires ImportsOk(s.db) && GenerationsOk(s.db) && DatasetsOk(s.db) && WorkersOk(s) && Commits(s, k, w, db')
    ensures DatasetsOk(db')
  {
    assert WorkerOk(s.db, k, w) && GenerationOk(s.db, k.importId);
    forall e | e in db'.datasets ensures DatasetOk(db', e) {
      assert DatasetOk(s.db, e);
      if db'.datasets[e].current.None? {
        assert HasSucceeded(db', e) ==> HasSucceeded(s.db, e);
      } else if e != w.job.dataset || w.job.mode == Append {
        CommittedGeneration(s, k, w, db', e, s.db.datasets[e].current.value);
      }
    }
  }

  function Done(s: System, k: Key, db': Db): System
    requires k in s.workers
  {
    s.(db := db', workers := s.workers[k := s.workers[k].(phase := Finished)])
  }

  lemma CommittedWorkers(s: System, k: Key, w: Worker, db': Db)
    requires ImportsOk(s.db) && WorkersOk(s) && Commits(s, k, w, db')
    ensures WorkersOk(Done(s, k, db'))
  {
    var s' := Done(s, k, db');
    forall j | j in s'.workers ensures WorkerOk(db', j, s'.workers[j]) {
      assert WorkerOk(s.db, j, s.workers[j]);
    }
    forall i | i in db'.imports ensures PublisherOk(db', s'.workers, i) { assert PublisherOk(s.db, s.workers, i); }
  }

  lemma CommittedRows(s: System, k: Key, w: Worker, db': Db)
    requires ImportsOk(s.db) && WorkersOk(s) && StagedOk(s) && OrderOk(s) && Commits(s, k, w, db')
    ensures StagedOk(Done(s, k, db')) && OrderOk(Done(s, k, db'))
  {
    var s' := Done(s, k, db');
    forall j | j in s'.workers && IsCurrent(db', j)
      ensures j != k && IsCurrent(s.db, j)
      ensures var e := s'.workers[j].job.dataset; After(RowsOf(db', e), VisibleKeys(db', e), j)
    {
      assert IsCurrent(s.db, j);
      assert WorkerOk(s.db, j, s.workers[j]) && WorkerOk(s.db, k, w);
      assert s.workers[j].job.dataset != w.job.dataset;
      CommittedElsewhere(s, k, w, db', s.workers[j].job.dataset);
    }
  }

  lemma CommittedGone(s: System, k: Key, w: Worker, db': Db, i: Id)
    requires GenerationsOk(s.db) && WorkersOk(s) && Commits(s, k, w, db') && Gone(s.db, i)
    ensures Gone(db', i)
  {
    assert WorkerOk(s.db, k, w);
    assert GenerationOk(s.db, i) && GenerationOk(s.db, k.importId);
  }

  lemma CommittedItems(s: System, k: Key, w: Worker, db': Db)
    requires GenerationsOk(s.db) && WorkersOk(s) && Commits(s, k, w, db') && ItemsOk(s)
    ensures ItemsOk(s.(db := db'))
  {
    forall item | item in s.items ensures ItemOk(db', item) {
      assert ItemOk(s.db, item);
      if Gone(s.db, item.importId) { CommittedGone(s, k, w, db', item.importId); }
    }
  }

  lemma CommitPreserves(s: System, k: Key, w: Worker, db': Db)
    requires Inv(s) && Commits(s, k, w, db')
    ensures Inv(Done(s, k, db'))
  {
    CommittedCounts(s, k, w, db');
    CommittedImports(s, k, w, db');
    CommittedDatasets(s, k, w, db');
    CommittedWorkers(s, k, w, db');
    CommittedRows(s, k, w, db');
    CommittedItems(s, k, w, db');
    LearnedRows(s, Done(s, k, db'));
  }

  lemma PublishPreserves(s: System, k: Key, now: Time)
    requires Inv(s) && k in s.workers
    ensures Inv(PublishStep(s, k, now))
    ensures forall e :: View(PublishStep(s, k, now).db, e) == Apply(View(s.db, e), e, EffectOf(s, EPublish(k, now)))
  {
    var s' := PublishStep(s, k, now);
    if Publishes(s, k, now) {
      PublishCommits(s, k, now);
      CommitPreserves(s, k, s.workers[k], s'.db);
      forall e { CommittedView(s, k, s.workers[k], s'.db, e); }
    } else if s' != s {
      assert WorkerOk(s.db, k, s.workers[k]);
      WorkerPreserves(s, k, s'.workers[k]);
      assert s' == WithWorker(s, k, s'.workers[k]);
    }
  }

  // ---------------------------------------------------------------------------------------------------------
  // One step
  // ---------------------------------------------------------------------------------------------------------

  lemma EvolveViews(s: System, db': Db)
    requires Inv(s) && Evolves(s.db, db') && db'.tables == s.db.tables
    ensures forall e :: View(db', e) == View(s.db, e)
  {
    EvolvedViews(s.db, db');
  }

  lemma FailPreserves(s: System, k: Key, now: Time)
    requires Inv(s) && k in s.workers
    ensures Inv(FailStep(s, k, now)) && Evolves(s.db, FailStep(s, k, now).db)
    ensures FailStep(s, k, now).db.tables == s.db.tables
  {
    var db' := Fail(s.db, s.workers[k].job, now).0;
    UpdatePreserves(s, db');
    var mid := s.(db := db');
    assert WorkerOk(mid.db, k, mid.workers[k]);
    StopPreserves(mid, k);
  }

  lemma StopPreserves(s: System, k: Key)
    requires Inv(s) && k in s.workers
    ensures Inv(StopStep(s, k)) && StopStep(s, k).db == s.db
  {
    assert WorkerOk(s.db, k, s.workers[k]);
    if s.workers[k].phase == Live { WorkerPreserves(s, k, s.workers[k].(phase := Dead)); }
  }

  lemma HeartbeatUpdates(db: Db, job: Job, now: Time)
    ensures Updates(db, Heartbeat(db, job, now).0)
    ensures Heartbeat(db, job, now).0.tables == db.tables
  {
  }

  lemma RequeueUpdates(db: Db, staleAfter: nat, now: Time)
    ensures Updates(db, RequeueStale(db, staleAfter, now))
    ensures RequeueStale(db, staleAfter, now).tables == db.tables
  {
  }

  /** A worker's event keeps the invariant, and changes views only as its publication does. */
  lemma WorkerStepRefines(s: System, k: Key, e: Event)
    requires Inv(s) && k in s.workers
    requires e.EHeartbeat? || e.EReadDataset? || e.EReadColumns? || e.EEnsure? || e.EInsert? || e.EStop? || e.EFail?
             || e.EPublish?
    requires e.worker == k
    ensures Inv(WorkerStep(s, k, e))
    ensures forall d :: View(WorkerStep(s, k, e).db, d) == Apply(View(s.db, d), d, EffectOf(s, e))
  {
    hide Inv, View, Evolves, Heartbeat, ReadDatasetStep, ReadColumnsStep, EnsureStep, InsertStep, PublishStep;
    match e
    case EHeartbeat(_, now) =>
      HeartbeatUpdates(s.db, s.workers[k].job, now);
      UpdatePreserves(s, Heartbeat(s.db, s.workers[k].job, now).0);
      EvolveViews(s, Heartbeat(s.db, s.workers[k].job, now).0);
    case EReadDataset(_) => ReadPreserves(s, k);
    case EReadColumns(_) => ReadPreserves(s, k);
    case EEnsure(_, crash) => EnsurePreserves(s, k, crash);
    case EInsert(_, batch, acknowledged) => InsertPreserves(s, k, batch, acknowledged);
    case EStop(_) => StopPreserves(s, k);
    case EFail(_, now) =>
      FailPreserves(s, k, now);
      EvolveViews(s, FailStep(s, k, now).db);
    case EPublish(_, now) => PublishPreserves(s, k, now);
  }

  /** Every event keeps the invariant and changes every view exactly as its publication, if any, says. */
  lemma StepRefines(s: System, e: Event)
    requires Inv(s)
    ensures Inv(Step(s, e))
    ensures forall d :: View(Step(s, e).db, d) == Apply(View(s.db, d), d, EffectOf(s, e))
  {
    hide Inv, View, Evolves, Submit, RequeueStale, UpdateMetadata, Archive, WorkerStep, ClaimStep;
    match e
    case ESubmit(input) =>
      SubmitPreserves(s, input);
      EvolveViews(s, Step(s, e).db);
    case EClaim(i, owner, now) =>
      ClaimPreserves(s, i, owner, now);
      EvolveViews(s, Step(s, e).db);
    case ERequeueStale(staleAfter, now) =>
      RequeueUpdates(s.db, staleAfter, now);
      UpdatePreserves(s, RequeueStale(s.db, staleAfter, now));
      EvolveViews(s, Step(s, e).db);
    case EUpdate(d, revision, name, wellFormed) =>
      UpdateMetadataPreserves(s, d, revision, name, wellFormed);
      EvolveViews(s, Step(s, e).db);
    case EArchive(d, revision) =>
      ArchivePreserves(s, d, revision);
      EvolveViews(s, Step(s, e).db);
    case EListCleanup(grace, now) => ListCleanupPreserves(s, grace, now);
    case ECleanup(item, doomed) => if item in s.items { CleanupPreserves(s, item, doomed); }
    case _ => if e.worker in s.workers { WorkerStepRefines(s, e.worker, e); }
  }

  // ---------------------------------------------------------------------------------------------------------
  // Whole runs
  // ---------------------------------------------------------------------------------------------------------

  /**
   In every reachable state the rows a dataset's view selects are exactly those of the last published Replace
   followed by those of each Append published since.
  */
  lemma {:induction false} RunRefines(events: seq<Event>, d: Id)
    ensures Inv(Run(events))
    ensures View(Run(events).db, d) == Published(events, d)
  {
    if events == [] {
      EmptyView(EmptyDb, d);
    } else {
      var before := events[..|events| - 1];
      RunRefines(before, d);
      StepRefines(Run(before), events[|events| - 1]);
    }
  }

  /** row_count is the number of rows a reader sees, and never exceeds the limit. */
  lemma RowCountIsVisibleRows(events: seq<Event>, d: Id)
    requires d in Run(events).db.datasets
    ensures Run(events).db.datasets[d].rowCount == |Published(events, d)| <= MAX_DATA_ROWS
  {
    RunRefines(events, d);
    assert CountOk(Run(events).db, d);
  }

  lemma GoneStep(s: System, e: Event, i: Id)
    requires Inv(s) && Gone(s.db, i)
    ensures Gone(Step(s, e).db, i)
  {
    hide Inv, Evolves, Gone, Submit, RequeueStale, UpdateMetadata, Archive, WorkerStep, ClaimStep;
    match e
    case ESubmit(input) => SubmitPreserves(s, input); GoneStays(s.db, Step(s, e).db, i);
    case EClaim(j, owner, now) => ClaimPreserves(s, j, owner, now); GoneStays(s.db, Step(s, e).db, i);
    case ERequeueStale(staleAfter, now) =>
      RequeueUpdates(s.db, staleAfter, now);
      UpdatePreserves(s, RequeueStale(s.db, staleAfter, now));
      GoneStays(s.db, Step(s, e).db, i);
    case EUpdate(d, revision, name, wellFormed) =>
      UpdateMetadataPreserves(s, d, revision, name, wellFormed);
      GoneStays(s.db, Step(s, e).db, i);
    case EArchive(d, revision) => ArchivePreserves(s, d, revision); GoneStays(s.db, Step(s, e).db, i);
    case EListCleanup(_, _) =>
    case ECleanup(item, doomed) => GoneInTables(s.db, CleanupRows(s.db, item, doomed), i);
    case _ => if e.worker in s.workers { GoneWorkerStep(s, e.worker, e, i); }
  }

  lemma GoneInTables(db: Db, db': Db, i: Id)
    requires db'.imports == db.imports && db'.datasets == db.datasets && Gone(db, i)
    ensures Gone(db', i)
  {
  }

  lemma GoneWorkerStep(s: System, k: Key, e: Event, i: Id)
    requires Inv(s) && k in s.workers && Gone(s.db, i)
    ensures Gone(WorkerStep(s, k, e).db, i)
  {
    hide Inv, Evolves, Gone, Heartbeat, FailStep, PublishStep;
    match e
    case EHeartbeat(_, now) =>
      HeartbeatUpdates(s.db, s.workers[k].job, now);
      UpdatePreserves(s, Heartbeat(s.db, s.workers[k].job, now).0);
      GoneStays(s.db, WorkerStep(s, k, e).db, i);
    case EReadDataset(_) =>
    case EReadColumns(_) =>
    case EEnsure(_, crash) => GoneInTables(s.db, EnsureStep(s, k, crash).db, i);
    case EInsert(_, batch, acknowledged) => GoneInTables(s.db, InsertStep(s, k, batch, acknowledged).db, i);
    case EStop(_) =>
    case EFail(_, now) => FailPreserves(s, k, now); GoneStays(s.db, WorkerStep(s, k, e).db, i);
    case EPublish(_, now) => GonePublishStep(s, k, now, i);
    case _ =>
  }

  lemma GonePublishStep(s: System, k: Key, now: Time, i: Id)
    requires Inv(s) && k in s.workers && Gone(s.db, i)
    ensures Gone(PublishStep(s, k, now).db, i)
  {
    if Publishes(s, k, now) {
      PublishCommits(s, k, now);
      CommittedGone(s, k, s.workers[k], PublishStep(s, k, now).db, i);
    }
  }

  lemma GoneIsInvisible(db: Db, i: Id, attempt: nat, d: Id)
    requires Gone(db, i)
    ensures Key(i, attempt) !in VisibleKeys(db, d)
  {
    assert Key(i, attempt) in VisibleKeys(db, d) ==> Shown(db, d, i);
  }

  /** An import that failed or was retired stays invisible in every later state. */
  lemma {:induction false} GoneForever(before: seq<Event>, more: seq<Event>, i: Id, attempt: nat, d: Id)
    requires Gone(Run(before).db, i)
    ensures Gone(Run(before + more).db, i)
    ensures Key(i, attempt) !in VisibleKeys(Run(before + more).db, d)
  {
    hide Inv, Gone, VisibleKeys, Step;
    if more == [] {
      assert before + more == before;
    } else {
      var n := |more| - 1;
      assert (before + more)[..|before + more| - 1] == before + more[..n];
      GoneForever(before, more[..n], i, attempt, d);
      RunRefines(before + more[..n], d);
      GoneStep(Run(before + more[..n]), more[n], i);
    }
    GoneIsInvisible(Run(before + more).db, i, attempt, d);
  }

  lemma {:induction false} ItemsStay(before: seq<Event>, more: seq<Event>)
    ensures Run(before).items <= Run(before + more).items
  {
    if more == [] {
      assert before + more == before;
    } else {
      hide ClaimStep, Submit, Archive, UpdateMetadata, RequeueStale, CleanupRows, CleanupCandidates, Ensure, Publish, Owned;
      var n := |more| - 1;
      assert (before + more)[..|before + more| - 1] == before + more[..n];
      ItemsStay(before, more[..n]);
      StepKeepsItems(Run(before + more[..n]), more[n]);
    }
  }

  lemma StepKeepsItems(s: System, e: Event)
    ensures s.items <= Step(s, e).items
  {
    hide Submit, Archive, UpdateMetadata, RequeueStale, CleanupRows, CleanupCandidates, Ensure, Publish, Owned;
  }

  /** Whatever happened since a candidate was listed, deleting its rows leaves every reader's list as it is. */
  lemma OldCleanupIsInvisible(before: seq<Event>, grace: nat, now: Time, more: seq<Event>, item: CleanupItem,
                              doomed: set<nat>, d: Id)
    requires item in CleanupCandidates(Run(before).db, grace, now)
    ensures var db := Run(before + [EListCleanup(grace, now)] + more).db;
            View(CleanupRows(db, item, doomed), d) == View(db, d)
  {
    hide Inv, View, CleanupRows, CleanupCandidates, Claim;
    var listed := before + [EListCleanup(grace, now)];
    assert listed[..|listed| - 1] == before;
    assert item in Run(listed).items;
    ItemsStay(listed, more);
    RunRefines(listed + more, d);
    CleanupPreserves(Run(listed + more), item, doomed);
  }
}
