/** Exactly when an import is published, what that writes, and that a claimed import can always be carried through. */
module ImportProgress {
  import opened Options
  import opened ImportTables
  import opened ImportProtocol
  import opened ImportInvariants
  import opened ImportRuns
  import opened ImportSubmissions

  // ---------------------------------------------------------------------------------------------------------
  // An unfinished import stays publishable
  // ---------------------------------------------------------------------------------------------------------

  /** Nothing moves an unfinished import's dataset away from it. */
  ghost predicate PublishableOk(db: Db, i: Id)
    requires i in db.imports
  {
    var m := db.imports[i];
    IsActive(m) ==>
      && m.dataset in db.datasets
      && var dataset := db.datasets[m.dataset];
         && m.schemaRevision == dataset.schemaRevision && dataset.status != Archived
         && (m.mode == Append ==> dataset.status == Active && dataset.current == Some(m.generation))
  }

  /** The physical table of a published dataset has its columns. */
  ghost predicate TableOk(db: Db, d: Id)
    requires d in db.datasets
  {
    db.datasets[d].current.Some? ==> d in db.tables && db.tables[d].columns == db.datasets[d].columns
  }

  /** The worker of a running attempt owns it. */
  ghost predicate ClaimOk(db: Db, k: Key, w: Worker) {
    IsCurrent(db, k) ==> Owned(db, w.job) && w.job.schemaRevision == db.imports[k.importId].schemaRevision
  }

  ghost predicate Entitled(s: System) {
    && (forall i {:trigger PublishableOk(s.db, i)} | i in s.db.imports :: PublishableOk(s.db, i))
    && (forall d {:trigger TableOk(s.db, d)} | d in s.db.datasets :: TableOk(s.db, d))
    && (forall k {:trigger ClaimOk(s.db, k, s.workers[k])} | k in s.workers :: ClaimOk(s.db, k, s.workers[k]))
  }

  lemma SubmitEntitled(events: seq<Event>, s: System, input: Submission)
    requires s == Run(events) && Inv(s) && Entitled(s)
    ensures Entitled(s.(db := Submit(s.db, input).0))
  {
    hide Run, Submit, Inv;
    SubmitExactly(events, s.db, input);
    var s' := s.(db := Submit(s.db, input).0);
    if Submit(s.db, input).1 == Done {
      var d := if input.dataset.None? then s.db.nextDataset else input.dataset.value;
      if d in s.db.datasets { DatasetAt(s, d); }
      forall i | i in s'.db.imports ensures PublishableOk(s'.db, i) {
        if i in s.db.imports {
          assert PublishableOk(s.db, i);
          assert Idle(s.db, d) || d !in s.db.datasets;
        }
      }
      forall e | e in s'.db.datasets ensures TableOk(s'.db, e) { if e in s.db.datasets { assert TableOk(s.db, e); } }
      forall k | k in s'.workers ensures ClaimOk(s'.db, k, s'.workers[k]) {
        assert ClaimOk(s.db, k, s.workers[k]);
        WorkerAt(s, k);
      }
    }
  }

  lemma DatasetAt(s: System, d: Id)
    requires Inv(s) && d in s.db.datasets
    ensures DatasetOk(s.db, d)
  {
  }

  lemma WorkerAt(s: System, k: Key)
    requires Inv(s) && k in s.workers
    ensures WorkerOk(s.db, k, s.workers[k])
  {
  }

  /** Steps that move neither datasets, tables nor the claims of workers. */
  lemma SameRowsEntitled(s: System, s': System)
    requires Entitled(s) && s'.db.datasets == s.db.datasets && s'.db.imports.Keys == s.db.imports.Keys
    requires forall d <- s.db.tables | d in s.db.datasets && s.db.datasets[d].current.Some? ::
               d in s'.db.tables && s'.db.tables[d].columns == s.db.tables[d].columns
    requires forall i <- s.db.imports ::
               && s'.db.imports[i].dataset == s.db.imports[i].dataset && s'.db.imports[i].mode == s.db.imports[i].mode
               && s'.db.imports[i].schemaRevision == s.db.imports[i].schemaRevision
               && s'.db.imports[i].generation == s.db.imports[i].generation
               && (IsActive(s'.db.imports[i]) ==> IsActive(s.db.imports[i]))
    requires forall k <- s'.workers | IsCurrent(s'.db, k) ::
               k in s.workers && s'.workers[k].job == s.workers[k].job && IsCurrent(s.db, k)
               && k.importId == s.workers[k].job.importId
               && s'.db.imports[k.importId].owner == s.db.imports[k.importId].owner
    ensures Entitled(s')
  {
    forall i | i in s'.db.imports ensures PublishableOk(s'.db, i) { assert PublishableOk(s.db, i); }
    forall d | d in s'.db.datasets ensures TableOk(s'.db, d) { assert TableOk(s.db, d); }
    forall k | k in s'.workers ensures ClaimOk(s'.db, k, s'.workers[k]) {
      if IsCurrent(s'.db, k) { assert ClaimOk(s.db, k, s.workers[k]); }
    }
  }

  lemma ClaimEntitled(s: System, i: Id, owner: Owner, now: Time)
    requires Inv(s) && Entitled(s)
    ensures Entitled(ClaimStep(s, i, owner, now))
  {
    hide Inv;
    var s' := ClaimStep(s, i, owner, now);
    if s' != s {
      forall j | j in s'.db.imports ensures PublishableOk(s'.db, j) { assert PublishableOk(s.db, j); }
      forall d | d in s'.db.datasets ensures TableOk(s'.db, d) { assert TableOk(s.db, d); }
      forall k | k in s'.workers ensures ClaimOk(s'.db, k, s'.workers[k]) {
        if k in s.workers {
          assert ClaimOk(s.db, k, s.workers[k]);
          WorkerAt(s, k);
        }
      }
    }
  }

  lemma AmendEntitled(s: System, e: Event)
    requires Inv(s) && Entitled(s) && (e.EUpdate? || e.EArchive?)
    ensures Entitled(Step(s, e))
  {
    hide Inv;
    var s' := Step(s, e);
    forall i | i in s'.db.imports ensures PublishableOk(s'.db, i) {
      assert PublishableOk(s.db, i);
      assert IsActive(s.db.imports[i]) ==> HasActive(s.db, s.db.imports[i].dataset);
    }
    forall d | d in s'.db.datasets ensures TableOk(s'.db, d) { assert TableOk(s.db, d); }
    forall k | k in s'.workers ensures ClaimOk(s'.db, k, s'.workers[k]) { assert ClaimOk(s.db, k, s.workers[k]); }
  }

  lemma PublishEntitled(s: System, k: Key, now: Time)
    requires Inv(s) && Entitled(s) && k in s.workers
    ensures Entitled(PublishStep(s, k, now))
  {
    hide Publish, Inv;
    var s', w := PublishStep(s, k, now), s.workers[k];
    WorkerAt(s, k);
    PublishWrites(s.db, w.job, |w.sent|, now);
    if w.phase == Live && w.ensured {
      forall i | i in s'.db.imports ensures PublishableOk(s'.db, i) {
        assert PublishableOk(s.db, i);
        OneActive(s, i, k.importId);
      }
      forall d | d in s'.db.datasets ensures TableOk(s'.db, d) { assert TableOk(s.db, d); }
      forall j | j in s'.workers ensures ClaimOk(s'.db, j, s'.workers[j]) {
        assert ClaimOk(s.db, j, s.workers[j]);
        WorkerAt(s, j);
      }
    }
  }

  lemma OneActive(s: System, i: Id, j: Id)
    requires Inv(s) && i in s.db.imports && j in s.db.imports
    ensures IsActive(s.db.imports[i]) && IsActive(s.db.imports[j]) && s.db.imports[i].dataset == s.db.imports[j].dataset
        ==> i == j
  {
  }

  lemma OwnerEntitled(s: System, k: Key, e: Event)
    requires Inv(s) && Entitled(s) && k in s.workers && (e.EHeartbeat? || e.EFail?)
    ensures Entitled(WorkerStep(s, k, e))
  {
    hide Inv, Entitled, EnsureStep, InsertStep, PublishStep, ReadDatasetStep, ReadColumnsStep;
    forall j <- s.workers ensures j == Key(s.workers[j].job.importId, s.workers[j].job.attempt) { WorkerAt(s, j); }
    SameRowsEntitled(s, WorkerStep(s, k, e));
  }

  lemma ReadingEntitled(s: System, k: Key, e: Event)
    requires Inv(s) && Entitled(s) && k in s.workers && (e.EReadDataset? || e.EReadColumns? || e.EStop?)
    ensures Entitled(WorkerStep(s, k, e))
  {
    hide Inv, Entitled, EnsureStep, InsertStep, PublishStep, FailStep, Heartbeat;
    forall j <- s.workers ensures j == Key(s.workers[j].job.importId, s.workers[j].job.attempt) { WorkerAt(s, j); }
    SameRowsEntitled(s, WorkerStep(s, k, e));
  }

  lemma TableEntitled(s: System, k: Key, e: Event)
    requires Inv(s) && Entitled(s) && k in s.workers && (e.EEnsure? || e.EInsert?)
    ensures Entitled(WorkerStep(s, k, e))
  {
    hide Inv, Entitled, EnsureStep, InsertStep;
    forall j <- s.workers ensures j == Key(s.workers[j].job.importId, s.workers[j].job.attempt) { WorkerAt(s, j); }
    if e.EEnsure? {
      forall d <- s.db.datasets ensures DatasetOk(s.db, d) { DatasetAt(s, d); }
      EnsureFrame(s, k, e.crash);
    } else {
      InsertFrame(s, k, e.batch, e.acknowledged);
    }
    SameRowsEntitled(s, WorkerStep(s, k, e));
  }

  lemma WorkerEntitled(s: System, k: Key, e: Event)
    requires Inv(s) && Entitled(s) && k in s.workers && !e.EPublish?
    ensures Entitled(WorkerStep(s, k, e))
  {
    hide Inv, Entitled;
    if e.EHeartbeat? || e.EFail? {
      OwnerEntitled(s, k, e);
    } else if e.EReadDataset? || e.EReadColumns? || e.EStop? {
      ReadingEntitled(s, k, e);
    } else if e.EEnsure? || e.EInsert? {
      TableEntitled(s, k, e);
    }
  }

  lemma EnsureFrame(s: System, k: Key, crash: bool)
    requires k in s.workers && forall d <- s.db.datasets :: DatasetOk(s.db, d)
    ensures var s' := EnsureStep(s, k, crash);
            && s'.db == s.db.(tables := s'.db.tables)
            && s'.workers.Keys == s.workers.Keys && (forall j <- s.workers :: s'.workers[j].job == s.workers[j].job)
            && (forall d <- s.db.tables | d in s.db.datasets && s.db.datasets[d].current.Some? ::
                  d in s'.db.tables && s'.db.tables[d] == s.db.tables[d])
  {
    hide HasSucceeded;
  }

  lemma InsertFrame(s: System, k: Key, batch: seq<(nat, Values)>, acknowledged: bool)
    requires k in s.workers
    ensures var s' := InsertStep(s, k, batch, acknowledged);
            && s'.db == s.db.(tables := s'.db.tables)
            && s'.workers.Keys == s.workers.Keys && (forall j <- s.workers :: s'.workers[j].job == s.workers[j].job)
            && s'.db.tables.Keys == s.db.tables.Keys
            && (forall d <- s.db.tables :: s'.db.tables[d].columns == s.db.tables[d].columns)
  {
    hide NewRows, ValuesOf, Owned;
  }

  lemma StepEntitled(events: seq<Event>, s: System, e: Event)
    requires s == Run(events) && Inv(s) && Entitled(s)
    ensures Entitled(Step(s, e))
  {
    hide Run, Inv, Entitled, Submit, ClaimStep, WorkerStep, PublishStep, UpdateMetadata, Archive, CleanupCandidates;
    forall j <- s.workers ensures j == Key(s.workers[j].job.importId, s.workers[j].job.attempt) { WorkerAt(s, j); }
    match e
    case ESubmit(input) => SubmitEntitled(events, s, input);
    case EClaim(i, owner, now) => ClaimEntitled(s, i, owner, now);
    case ERequeueStale(_, _) => SameRowsEntitled(s, Step(s, e));
    case EUpdate(_, _, _, _) => AmendEntitled(s, e);
    case EArchive(_, _) => AmendEntitled(s, e);
    case EListCleanup(_, _) => SameRowsEntitled(s, Step(s, e));
    case ECleanup(_, _) => SameRowsEntitled(s, Step(s, e));
    case EPublish(k, now) => if k in s.workers { PublishIsStep(s, k, e); PublishEntitled(s, k, now); }
    case _ => if e.worker in s.workers { WorkerEntitled(s, e.worker, e); }
  }

  lemma PublishIsStep(s: System, k: Key, e: Event)
    requires k in s.workers && e.EPublish? && e.worker == k
    ensures WorkerStep(s, k, e) == PublishStep(s, k, e.now)
  {
  }

  lemma {:induction false} RunEntitled(events: seq<Event>)
    ensures Inv(Run(events)) && Entitled(Run(events))
  {
    RunRefines(events, 0);
    if events != [] {
      hide Step, Inv, Entitled;
      RunEntitled(events[..|events| - 1]);
      StepEntitled(events[..|events| - 1], Run(events[..|events| - 1]), events[|events| - 1]);
    }
  }

  // ---------------------------------------------------------------------------------------------------------
  // Publishing
  // ---------------------------------------------------------------------------------------------------------

  /** What a publication writes: the import's and the dataset's row, and nothing else. */
  lemma PublishWrites(db: Db, job: Job, rows: nat, now: Time)
    ensures var (db', outcome) := Publish(db, job, rows, now);
            && (outcome != Done ==> db' == db)
            && (outcome == Done ==>
                  && Owned(db, job) && job.dataset in db.datasets
                  && var m, dataset := db.imports[job.importId], db.datasets[job.dataset];
                     && db'.tables == db.tables && db'.nextDataset == db.nextDataset && db'.nextImport == db.nextImport
                     && db'.imports == db.imports[job.importId := m.(status := Succeeded, published := Some(m.attempt),
                                                                     finished := Some(now), heartbeat := Some(now))]
                     && db'.datasets == db.datasets[job.dataset := match m.mode
                          case Replace => dataset.(status := Active, current := Some(m.generation), rowCount := rows,
                                                   revision := dataset.revision + 1)
                          case Append => dataset.(rowCount := dataset.rowCount + rows, revision := dataset.revision + 1)])
  {
  }

  /**
   In every reachable state a worker that staged its stream publishes it exactly if its attempt is the one that runs,
   and, if it extends, the dataset does not outgrow the limit.
  */
  lemma PublishesExactly(events: seq<Event>, s: System, k: Key, now: Time)
    requires s == Run(events) && k in s.workers && s.workers[k].phase == Live && s.workers[k].ensured
    ensures var w := s.workers[k];
            Publishes(s, k, now) <==>
              && k.importId in s.db.imports && s.db.imports[k.importId].status == Running
              && s.db.imports[k.importId].attempt == k.attempt
              && (s.db.imports[k.importId].mode == Append ==>
                    |View(s.db, w.job.dataset)| + |w.sent| <= 1_000_000)
  {
    hide Run, View;
    RunEntitled(events);
    var w := s.workers[k];
    WorkerAt(s, k);
    assert PublishableOk(s.db, k.importId) && ClaimOk(s.db, k, w);
    assert CountOk(s.db, w.job.dataset);
  }

  // ---------------------------------------------------------------------------------------------------------
  // Carrying an import through
  // ---------------------------------------------------------------------------------------------------------

  function Inserts(k: Key, batches: seq<seq<(nat, Values)>>): seq<Event> {
    seq(|batches|, n requires 0 <= n < |batches| => EInsert(k, batches[n], true))
  }

  function Stream(batches: seq<seq<(nat, Values)>>): seq<Values> {
    if batches == [] then []
    else Stream(batches[..|batches| - 1]) + ValuesOf(batches[|batches| - 1])
  }

  /** The worker of the running attempt, ready to stage. */
  ghost predicate Ready(s: System, k: Key, sent: seq<Values>) {
    && k in s.workers && s.workers[k].phase == Live && s.workers[k].ensured && s.workers[k].sent == sent
    && IsCurrent(s.db, k)
  }

  lemma RunOneMore(events: seq<Event>, e: Event)
    ensures Run(events + [e]) == Step(Run(events), e)
  {
    assert (events + [e])[..|events + [e]| - 1] == events;
  }

  /** A worker just claimed reads the dataset and its columns and gets its table, whatever the dataset went through. */
  lemma ClaimedGetsReady(events: seq<Event>, k: Key)
    requires var s := Run(events);
             && k in s.workers && IsCurrent(s.db, k)
             && s.workers[k] == Worker(s.workers[k].job, None, None, false, [], Live)
    ensures var s, s' := Run(events), Run(events + [EReadDataset(k)] + [EReadColumns(k)] + [EEnsure(k, false)]);
            Ready(s', k, []) && s'.workers[k].job == s.workers[k].job && s'.db.imports == s.db.imports
  {
    hide Run, HasSucceeded;
    var s := Run(events);
    RunEntitled(events);
    WorkerAt(s, k);
    assert PublishableOk(s.db, k.importId) && ClaimOk(s.db, k, s.workers[k]);
    var d := s.workers[k].job.dataset;
    assert TableOk(s.db, d) && DatasetOk(s.db, d);
    RunOneMore(events, EReadDataset(k));
    var s1 := Run(events + [EReadDataset(k)]);
    RunOneMore(events + [EReadDataset(k)], EReadColumns(k));
    RunOneMore(events + [EReadDataset(k)] + [EReadColumns(k)], EEnsure(k, false));
    EnsureSucceeds(s.db, d, k.importId);
  }

  lemma EnsureSucceeds(db: Db, d: Id, i: Id)
    requires ImportsOk(db) && d in db.datasets && DatasetOk(db, d) && TableOk(db, d)
    requires i in db.imports && db.imports[i].dataset == d && IsActive(db.imports[i]) && db.datasets[d].status != Archived
    ensures Ensure(db, d, i, db.datasets[d].status, db.datasets[d].columns, false).1
    ensures Ensure(db, d, i, db.datasets[d].status, db.datasets[d].columns, false).0.imports == db.imports
  {
  }

  lemma InsertsStage(events: seq<Event>, k: Key, batch: seq<(nat, Values)>, sent: seq<Values>)
    requires Ready(Run(events), k, sent) && |sent| + |batch| <= 1_000_000
    ensures var s, s' := Run(events), Run(events + [EInsert(k, batch, true)]);
            && Ready(s', k, sent + ValuesOf(batch)) && s'.workers[k].job == s.workers[k].job
            && s'.db.imports == s.db.imports
  {
    hide Run, NewRows, ValuesOf;
    var s := Run(events);
    RunEntitled(events);
    WorkerAt(s, k);
    assert ClaimOk(s.db, k, s.workers[k]);
    RunOneMore(events, EInsert(k, batch, true));
  }

  lemma {:induction false} StreamsStage(events: seq<Event>, k: Key, batches: seq<seq<(nat, Values)>>)
    requires Ready(Run(events), k, []) && |Stream(batches)| <= 1_000_000
    ensures var s, s' := Run(events), Run(events + Inserts(k, batches));
            && Ready(s', k, Stream(batches)) && s'.workers[k].job == s.workers[k].job
            && s'.db.imports == s.db.imports
  {
    hide Run, Ready, ValuesOf;
    if batches == [] {
      assert events + Inserts(k, batches) == events;
    } else {
      var n := |batches| - 1;
      BatchLength(batches[n]);
      StreamsStage(events, k, batches[..n]);
      assert events + Inserts(k, batches) == events + Inserts(k, batches[..n]) + [EInsert(k, batches[n], true)];
      InsertsStage(events + Inserts(k, batches[..n]), k, batches[n], Stream(batches[..n]));
    }
  }

  lemma BatchLength(batch: seq<(nat, Values)>)
    ensures |ValuesOf(batch)| == |batch|
  {
  }

  /**
   From every reachable state, a claimed import whose worker is not disturbed ends up published, in any batches: readers
   then see its stream, replacing or extending what they saw. Only an extension beyond the limit is refused.
  */
  lemma ClaimedCanPublish(events: seq<Event>, k: Key, batches: seq<seq<(nat, Values)>>, now: Time, d: Id)
    requires var s := Run(events);
             && k in s.workers && IsCurrent(s.db, k)
             && s.workers[k] == Worker(s.workers[k].job, None, None, false, [], Live)
             && s.db.imports[k.importId].dataset == d
    requires |Stream(batches)| <= 1_000_000
    ensures var s := Run(events);
            var ready := events + [EReadDataset(k)] + [EReadColumns(k)] + [EEnsure(k, false)];
            var s' := Run(ready + Inserts(k, batches) + [EPublish(k, now)]);
            View(s'.db, d) ==
              match s.db.imports[k.importId].mode
              case Replace => Stream(batches)
              case Append =>
                if |View(s.db, d)| + |Stream(batches)| <= 1_000_000 then View(s.db, d) + Stream(batches)
                else View(s.db, d)
  {
    hide Run, Step, View, Inv, Publish;
    var ready := events + [EReadDataset(k)] + [EReadColumns(k)] + [EEnsure(k, false)];
    var staged := ready + Inserts(k, batches);
    ClaimedGetsReady(events, k);
    StreamsStage(ready, k, batches);
    PublishesExactly(staged, Run(staged), k, now);
    RunEntitled(events);
    RunEntitled(staged);
    WorkerAt(Run(events), k);
    WorkerAt(Run(staged), k);
    RunOneMore(staged, EPublish(k, now));
    StepRefines(Run(staged), EPublish(k, now));
    QuietView(events, [EReadDataset(k)] + [EReadColumns(k)] + [EEnsure(k, false)] + Inserts(k, batches), d);
    assert staged == events + ([EReadDataset(k)] + [EReadColumns(k)] + [EEnsure(k, false)] + Inserts(k, batches));
  }

  /** Readers notice publications alone. */
  lemma {:induction false} QuietView(events: seq<Event>, more: seq<Event>, d: Id)
    requires forall e <- more :: !e.EPublish?
    ensures View(Run(events + more).db, d) == View(Run(events).db, d)
  {
    hide Run, Step, View, Inv;
    if more == [] {
      assert events + more == events;
    } else {
      var n := |more| - 1;
      assert events + more == events + more[..n] + [more[n]];
      RunOneMore(events + more[..n], more[n]);
      QuietView(events, more[..n], d);
      RunRefines(events + more[..n], d);
      StepRefines(Run(events + more[..n]), more[n]);
    }
  }
}
