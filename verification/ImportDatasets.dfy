/** What runs do to a dataset's row: revisions tell changes, published schemas and archived datasets are frozen. */
module ImportDatasets {
  import opened Options
  import opened ImportTables
  import opened ImportProtocol
  import opened ImportInvariants
  import opened ImportRuns

  /** A later row of the same dataset: the same one, or one of a higher revision. */
  predicate Later(a: Dataset, b: Dataset) {
    || b == a
    || (&& b.revision > a.revision
        && a.status != Archived
        && (a.current.Some? ==>
              b.current.Some? && b.columns == a.columns && b.schemaRevision == a.schemaRevision))
  }

  ghost predicate AllLater(db: Db, db': Db) {
    forall d <- db.datasets :: d in db'.datasets && Later(db.datasets[d], db'.datasets[d])
  }

  lemma SubmitIsLater(db: Db, input: Submission)
    requires ImportsOk(db) && DatasetsOk(db)
    ensures AllLater(db, Submit(db, input).0)
  {
    hide HasActive, HasSucceeded;
  }

  lemma PublishIsLater(db: Db, job: Job, rows: nat, now: Time)
    ensures AllLater(db, Publish(db, job, rows, now).0)
    ensures job.dataset in db.datasets && db.datasets[job.dataset].status == Archived ==>
              Publish(db, job, rows, now).1 != Done
  {
  }

  lemma WorkerStepIsLater(s: System, k: Key, e: Event)
    requires k in s.workers
    ensures AllLater(s.db, WorkerStep(s, k, e).db)
  {
    hide Ensure, Publish, Heartbeat, Fail, AllLater, Owned;
    OtherWorkerSteps(s, k, e);
    if e.EPublish? {
      PublishIsLater(s.db, s.workers[k].job, |s.workers[k].sent|, e.now);
      NothingChanged(s.db, s.db);
    } else {
      NothingChanged(s.db, WorkerStep(s, k, e).db);
    }
  }

  lemma OtherWorkerSteps(s: System, k: Key, e: Event)
    requires k in s.workers
    ensures !e.EPublish? ==> WorkerStep(s, k, e).db.datasets == s.db.datasets
  {
    hide Owned, Publish, ResetAllowed;
  }

  lemma NothingChanged(db: Db, db': Db)
    requires db'.datasets == db.datasets
    ensures AllLater(db, db')
  {
  }

  lemma StepIsLater(s: System, e: Event)
    requires Inv(s)
    ensures AllLater(s.db, Step(s, e).db)
  {
    hide AllLater, WorkerStep, Submit, Archive, UpdateMetadata;
    match e
    case ESubmit(input) => SubmitIsLater(s.db, input);
    case EUpdate(d, revision, name, wellFormed) => UpdateIsLater(s.db, d, revision, name, wellFormed);
    case EArchive(d, revision) => ArchiveIsLater(s.db, d, revision);
    case EClaim(_, _, _) => NothingChanged(s.db, Step(s, e).db);
    case ERequeueStale(_, _) => NothingChanged(s.db, Step(s, e).db);
    case EListCleanup(_, _) => NothingChanged(s.db, Step(s, e).db);
    case ECleanup(_, _) => NothingChanged(s.db, Step(s, e).db);
    case _ =>
      if e.worker in s.workers { WorkerStepIsLater(s, e.worker, e); } else { NothingChanged(s.db, Step(s, e).db); }
  }

  lemma UpdateIsLater(db: Db, d: Id, revision: nat, name: string, wellFormed: bool)
    ensures AllLater(db, UpdateMetadata(db, d, revision, name, wellFormed).0)
  {
  }

  lemma ArchiveIsLater(db: Db, d: Id, revision: nat)
    ensures AllLater(db, Archive(db, d, revision).0)
  {
  }

  lemma {:induction false} RunIsLater(before: seq<Event>, more: seq<Event>)
    ensures AllLater(Run(before).db, Run(before + more).db)
  {
    if more == [] {
      assert before + more == before;
    } else {
      hide Step, Inv;
      var n := |more| - 1;
      assert (before + more)[..|before + more| - 1] == before + more[..n];
      RunIsLater(before, more[..n]);
      RunRefines(before + more[..n], 0);
      StepIsLater(Run(before + more[..n]), more[n]);
    }
  }

  /** Once a dataset was published, its columns and its schema revision are what readers can rely on. */
  lemma SchemaIsFrozen(before: seq<Event>, more: seq<Event>, d: Id)
    requires d in Run(before).db.datasets && Run(before).db.datasets[d].current.Some?
    ensures d in Run(before + more).db.datasets
    ensures var was, now := Run(before).db.datasets[d], Run(before + more).db.datasets[d];
            now.current.Some? && now.columns == was.columns && now.schemaRevision == was.schemaRevision
  {
    hide Run;
    RunIsLater(before, more);
  }

  /** A caller that saw an older state of the dataset can neither submit to it nor rename or archive it. */
  lemma StaleRevisionIsRefused(before: seq<Event>, more: seq<Event>, d: Id, input: Submission)
    requires d in Run(before).db.datasets && d in Run(before + more).db.datasets
    requires Run(before + more).db.datasets[d] != Run(before).db.datasets[d]
    requires input.dataset == Some(d) && input.revision == Run(before).db.datasets[d].revision
    ensures var db := Run(before + more).db;
            && Submit(db, input).0 == db && Submit(db, input).1 != Done
            && Archive(db, d, input.revision) == (db, Conflict)
            && UpdateMetadata(db, d, input.revision, input.name, true) == (db, Conflict)
  {
    hide Run;
    RunIsLater(before, more);
  }

  /** Archiving is final: neither the dataset nor what its readers see changes again. */
  lemma {:induction false} ArchivedIsFinal(before: seq<Event>, more: seq<Event>, d: Id)
    requires d in Run(before).db.datasets && Run(before).db.datasets[d].status == Archived
    ensures d in Run(before + more).db.datasets && Run(before + more).db.datasets[d] == Run(before).db.datasets[d]
    ensures View(Run(before + more).db, d) == View(Run(before).db, d)
  {
    RunIsLater(before, more);
    if more == [] {
      assert before + more == before;
    } else {
      hide Step, Inv, Later, View, Publish;
      var n := |more| - 1;
      var events := before + more[..n];
      assert (before + more)[..|before + more| - 1] == events;
      ArchivedIsFinal(before, more[..n], d);
      RunRefines(events, d);
      StepRefines(Run(events), more[n]);
      NoEffectOnArchived(Run(events), more[n], d);
    }
  }

  lemma NoEffectOnArchived(s: System, e: Event, d: Id)
    requires d in s.db.datasets && s.db.datasets[d].status == Archived
    ensures EffectOf(s, e).Some? ==> EffectOf(s, e).value.dataset != d
  {
    hide Publish;
    if e.EPublish? && e.worker in s.workers {
      var w := s.workers[e.worker];
      PublishIsLater(s.db, w.job, |w.sent|, e.now);
    }
  }

  /** No dataset ever has two unfinished imports. */
  lemma OneActiveImport(events: seq<Event>, i: Id, j: Id)
    requires var m := Run(events).db.imports;
             i in m && j in m && m[i].dataset == m[j].dataset && IsActive(m[i]) && IsActive(m[j])
    ensures i == j
  {
    hide Run;
    RunRefines(events, Run(events).db.imports[i].dataset);
  }
}
