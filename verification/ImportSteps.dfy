/**
 The events on the dataset and import rows keep the invariant of the import protocol: submissions, heartbeats,
 requeues, failures, renames and archives move rows only in ways that no view can see.
*/
module ImportSteps {
  import opened Options
  import opened ImportTables
  import opened ImportProtocol
  import opened ImportInvariants

  /** The dataset updates that keep every view: no publication, and columns frozen while an import is active. */
  ghost predicate DatasetsEvolve(db: Db, db': Db) {
    && db.datasets.Keys <= db'.datasets.Keys
    && (forall d <- db.datasets ::
          && db'.datasets[d].rowCount == db.datasets[d].rowCount
          && (db'.datasets[d].status == Provisioning ==> db.datasets[d].status == Provisioning)
          && (db'.datasets[d].status == Active ==> db.datasets[d].status == Active)
          && (HasActive(db, d) ==> db'.datasets[d].columns == db.datasets[d].columns))
    && (forall d | d in db'.datasets && d !in db.datasets ::
          db'.datasets[d].rowCount == 0 && db'.datasets[d].status == Provisioning)
    && (forall d <- db'.datasets :: d < db'.nextDataset)
  }

  ghost predicate NoNewActive(db: Db, db': Db) {
    && db.imports.Keys <= db'.imports.Keys
    && (forall i <- db.imports :: IsActive(db'.imports[i]) ==> IsActive(db.imports[i]))
  }

  ghost predicate NoNewActivity(db: Db, db': Db) {
    && db.imports.Keys <= db'.imports.Keys
    && (forall i <- db.imports ::
          && (IsActive(db'.imports[i]) ==> IsActive(db.imports[i]))
          && (db'.imports[i].status == Running ==> db.imports[i].status == Running)
          && db'.imports[i].attempt == db.imports[i].attempt)
  }

  lemma EvolvedGenerations(db: Db, db': Db)
    requires GenerationsOk(db) && Evolves(db, db')
    requires forall i | i in db'.imports && i !in db.imports ::
               if db'.imports[i].mode == Replace then db'.imports[i].generation == i
               else GenerationOf(db, db'.imports[i].dataset, db'.imports[i].generation)
    ensures GenerationsOk(db')
  {
    forall i | i in db'.imports ensures GenerationOk(db', i) {
      if i in db.imports { assert GenerationOk(db, i) && SameImport(db.imports[i], db'.imports[i]); }
      if db'.imports[i].mode == Append {
        assert GenerationOf(db, db'.imports[i].dataset, db'.imports[i].generation);
        assert SameImport(db.imports[db'.imports[i].generation], db'.imports[db'.imports[i].generation]);
      }
    }
  }

  lemma EvolvedDatasets(db: Db, db': Db)
    requires ImportsOk(db) && DatasetsOk(db) && Evolves(db, db') && DatasetsEvolve(db, db')
    requires db'.tables == db.tables
    ensures DatasetsOk(db')
  {
    forall d | d in db'.datasets ensures DatasetOk(db', d) {
      assert d in db.datasets ==> DatasetOk(db, d);
      if db'.datasets[d].current.Some? {
        var g := db.datasets[d].current.value;
        assert GenerationOf(db, d, g) && SameImport(db.imports[g], db'.imports[g]);
      } else if i :| i in db'.imports && db'.imports[i].dataset == d && db'.imports[i].status == Succeeded {
        assert i in db.imports && SameImport(db.imports[i], db'.imports[i]);
        assert d in db.datasets && HasSucceeded(db, d);
      }
    }
  }

  lemma EvolvedViews(db: Db, db': Db)
    requires ImportsOk(db) && DatasetsOk(db) && Evolves(db, db') && db'.tables == db.tables
    ensures forall d :: View(db', d) == View(db, d)
  {
    forall d ensures View(db', d) == View(db, d) { EvolvesKeepsKeys(db, db', d); }
  }

  lemma EmptyView(db: Db, d: Id)
    requires d !in db.tables || d !in db.datasets || db.datasets[d].current.None?
    ensures View(db, d) == []
  {
    SelectNone(RowsOf(db, d), VisibleKeys(db, d));
  }

  lemma EvolvedCounts(db: Db, db': Db)
    requires ImportsOk(db) && DatasetsOk(db) && Evolves(db, db') && DatasetsEvolve(db, db') && db'.tables == db.tables
    requires CountsOk(db)
    ensures CountsOk(db')
  {
    EvolvedViews(db, db');
    forall d | d in db'.datasets ensures CountOk(db', d) {
      if d !in db.datasets { EmptyView(db', d); } else { assert CountOk(db, d); }
    }
  }

  lemma EvolvedWorker(db: Db, db': Db, k: Key, w: Worker)
    requires WorkerOk(db, k, w)
    requires Evolves(db, db') && DatasetsEvolve(db, db') && db'.tables == db.tables
    requires IsActive(db'.imports[k.importId]) ==> IsActive(db.imports[k.importId])
    ensures WorkerOk(db', k, w)
  {
    assert SameImport(db.imports[k.importId], db'.imports[k.importId]);
    if IsActive(db.imports[k.importId]) {
      assert HasActive(db, w.job.dataset);
    }
  }

  lemma GoneStays(db: Db, db': Db, i: Id)
    requires Evolves(db, db') && Gone(db, i)
    ensures Gone(db', i)
  {
    assert SameImport(db.imports[i], db'.imports[i]);
  }

  lemma EvolvedWorkers(s: System, db': Db)
    requires WorkersOk(s)
    requires Evolves(s.db, db') && DatasetsEvolve(s.db, db') && NoNewActivity(s.db, db') && db'.tables == s.db.tables
    ensures WorkersOk(s.(db := db'))
  {
    forall k <- s.workers ensures WorkerOk(db', k, s.workers[k]) {
      assert WorkerOk(s.db, k, s.workers[k]);
      EvolvedWorker(s.db, db', k, s.workers[k]);
    }
    forall i | i in db'.imports ensures PublisherOk(db', s.workers, i) {
      if i in s.db.imports { assert PublisherOk(s.db, s.workers, i) && SameImport(s.db.imports[i], db'.imports[i]); }
    }
  }

  lemma EvolvedCurrent(s: System, db': Db, k: Key)
    requires WorkersOk(s) && k in s.workers && NoNewActivity(s.db, db') && IsCurrent(db', k)
    ensures IsCurrent(s.db, k)
  {
    assert WorkerOk(s.db, k, s.workers[k]);
  }

  lemma EvolvedRows(s: System, db': Db)
    requires ImportsOk(s.db) && WorkersOk(s) && StagedOk(s) && OrderOk(s)
    requires Evolves(s.db, db') && NoNewActivity(s.db, db') && db'.tables == s.db.tables
    ensures StagedOk(s.(db := db')) && OrderOk(s.(db := db'))
  {
    forall k | k in s.workers && IsCurrent(db', k) ensures IsCurrent(s.db, k) { EvolvedCurrent(s, db', k); }
    forall k | k in s.workers && IsCurrent(db', k)
      ensures After(RowsOf(db', s.workers[k].job.dataset), VisibleKeys(db', s.workers[k].job.dataset), k)
    {
      EvolvesKeepsKeys(s.db, db', s.workers[k].job.dataset);
    }
  }

  lemma EvolvedItems(s: System, db': Db)
    requires ItemsOk(s) && Evolves(s.db, db') && NoNewActive(s.db, db')
    ensures ItemsOk(s.(db := db'))
  {
    forall item | item in s.items ensures ItemOk(db', item) {
      assert ItemOk(s.db, item);
      assert SameImport(s.db.imports[item.importId], db'.imports[item.importId]);
      if Gone(s.db, item.importId) { GoneStays(s.db, db', item.importId); }
    }
  }

  /** Everything that neither claims, publishes nor touches a table. */
  lemma EvolvePreserves(s: System, db': Db)
    requires Inv(s)
    requires Evolves(s.db, db') && DatasetsEvolve(s.db, db') && NoNewActivity(s.db, db') && db'.tables == s.db.tables
    requires ImportsOk(db') && GenerationsOk(db')
    ensures Inv(s.(db := db'))
  {
    EvolvedDatasets(s.db, db');
    EvolvedCounts(s.db, db');
    EvolvedWorkers(s, db');
    EvolvedRows(s, db');
    EvolvedItems(s, db');
  }

  // ---------------------------------------------------------------------------------------------------------
  // Submit, heartbeat, requeue, fail, archive
  // ---------------------------------------------------------------------------------------------------------

  /** Queuing one import in a dataset without an active one. */
  ghost predicate Queues(db: Db, db': Db) {
    var i := db.nextImport;
    && i in db'.imports
    && db'.imports == db.imports[i := db'.imports[i]]
    && db'.nextImport == i + 1
    && db'.tables == db.tables
    && db'.imports[i].status == Queued
    && db'.imports[i].published.None?
    && db'.imports[i].dataset in db'.datasets
    && !HasActive(db, db'.imports[i].dataset)
    && (if db'.imports[i].mode == Replace then db'.imports[i].generation == i
        else && db'.imports[i].dataset in db.datasets
             && db.datasets[db'.imports[i].dataset].current == Some(db'.imports[i].generation))
  }

  ghost predicate KeepsCurrent(db: Db, db': Db)
    requires db.datasets.Keys <= db'.datasets.Keys
  {
    && (forall d <- db.datasets :: db'.datasets[d].current == db.datasets[d].current)
    && (forall d | d in db'.datasets && d !in db.datasets :: db'.datasets[d].current.None?)
  }

  /** `mid` differs from `db` in the row of one dataset without an active import. */
  ghost predicate Edits(db: Db, mid: Db, d: Id) {
    && d in mid.datasets
    && mid == db.(datasets := mid.datasets, nextDataset := mid.nextDataset)
    && mid.datasets == db.datasets[d := mid.datasets[d]]
    && DatasetsEvolve(db, mid)
    && KeepsCurrent(db, mid)
  }

  lemma EnqueueQueues(db: Db, mid: Db, d: Id, input: Submission)
    requires ImportsOk(db) && DatasetsOk(db) && Edits(db, mid, d)
    ensures var db' := Enqueue(db, mid, d, input).0;
            db' == db || (Queues(db, db') && DatasetsEvolve(db, db') && KeepsCurrent(db, db'))
  {
    assert db.datasets.Keys <= mid.datasets.Keys;
    assert HasActive(db, d) ==> HasActive(mid, d);
  }

  lemma SubmitQueues(db: Db, input: Submission)
    requires ImportsOk(db) && DatasetsOk(db)
    ensures var db' := Submit(db, input).0;
            db' == db || (Queues(db, db') && DatasetsEvolve(db, db') && KeepsCurrent(db, db'))
  {
    hide Enqueue, Queues, DatasetsEvolve, KeepsCurrent, ImportsOk, DatasetsOk;
    if Submit(db, input).0 != db {
      if input.dataset.None? {
        var d := db.nextDataset;
        var mid := db.(datasets := db.datasets[d := Dataset(input.name, Provisioning, 1, 1, input.columns, None, 0)],
                       nextDataset := d + 1);
        NewDatasetEdits(db, d, mid);
        EnqueueQueues(db, mid, d, input);
      } else {
        var d := input.dataset.value;
        var dataset := db.datasets[d];
        var revised := dataset.(
          schemaRevision := dataset.schemaRevision + 1, revision := dataset.revision + 1,
          name := if input.name == "" then dataset.name else input.name, columns := input.columns);
        var mid := if dataset.status == Provisioning then db.(datasets := db.datasets[d := revised]) else db;
        RevisedEdits(db, d, mid);
        EnqueueQueues(db, mid, d, input);
      }
    }
  }

  lemma NewDatasetEdits(db: Db, d: Id, mid: Db)
    requires ImportsOk(db) && DatasetsOk(db) && d == db.nextDataset && d in mid.datasets
    requires mid == db.(datasets := db.datasets[d := mid.datasets[d]], nextDataset := d + 1)
    requires mid.datasets[d].status == Provisioning && mid.datasets[d].current.None? && mid.datasets[d].rowCount == 0
    ensures Edits(db, mid, d)
  {
  }

  lemma RevisedEdits(db: Db, d: Id, mid: Db)
    requires ImportsOk(db) && DatasetsOk(db) && d in db.datasets && d in mid.datasets
    requires mid == db.(datasets := db.datasets[d := mid.datasets[d]])
    requires mid.datasets[d].status == db.datasets[d].status && mid.datasets[d].current == db.datasets[d].current
    requires mid.datasets[d].rowCount == db.datasets[d].rowCount
    requires mid == db || !HasActive(db, d)
    ensures Edits(db, mid, d)
  {
  }

  lemma QueuedImports(db: Db, db': Db)
    requires ImportsOk(db) && Queues(db, db') && DatasetsEvolve(db, db')
    ensures ImportsOk(db')
  {
    var n := db.nextImport;
    forall i, j | i in db'.imports && j in db'.imports && IsActive(db'.imports[i]) && IsActive(db'.imports[j])
      ensures db'.imports[i].dataset == db'.imports[j].dataset ==> i == j
    {
      if i == n && j != n { assert j in db.imports && db.imports[j] == db'.imports[j]; }
      if j == n && i != n { assert i in db.imports && db.imports[i] == db'.imports[i]; }
    }
  }

  lemma QueuedEvolves(db: Db, db': Db)
    requires ImportsOk(db) && DatasetsOk(db) && GenerationsOk(db)
    requires Queues(db, db') && DatasetsEvolve(db, db') && KeepsCurrent(db, db')
    ensures Evolves(db, db') && NoNewActivity(db, db') && GenerationsOk(db')
  {
    var i := db.nextImport;
    QueuedKeepsRows(db, db');
    if db'.imports[i].mode == Append { assert DatasetOk(db, db'.imports[i].dataset); }
    hide Evolves, NoNewActivity, DatasetsEvolve, KeepsCurrent, ImportsOk, DatasetsOk;
    EvolvedGenerations(db, db');
  }

  lemma QueuedKeepsRows(db: Db, db': Db)
    requires ImportsOk(db) && Queues(db, db') && DatasetsEvolve(db, db') && KeepsCurrent(db, db')
    ensures Evolves(db, db') && NoNewActivity(db, db')
  {
    assert db.nextImport !in db.imports;
  }

  lemma QueuedPreserves(s: System, db': Db)
    requires Inv(s) && Queues(s.db, db') && DatasetsEvolve(s.db, db') && KeepsCurrent(s.db, db')
    ensures Inv(s.(db := db')) && Evolves(s.db, db')
  {
    QueuedEvolves(s.db, db');
    QueuedImports(s.db, db');
    EvolvePreserves(s, db');
  }

  lemma SubmitPreserves(s: System, input: Submission)
    requires Inv(s)
    ensures Inv(s.(db := Submit(s.db, input).0)) && Evolves(s.db, Submit(s.db, input).0)
    ensures Submit(s.db, input).0.tables == s.db.tables
  {
    var db' := Submit(s.db, input).0;
    SubmitQueues(s.db, input);
    if db' == s.db {
      assert s.(db := db') == s;
    } else {
      QueuedPreserves(s, db');
    }
  }

  /** The updates of single running imports. */
  ghost predicate Updates(db: Db, db': Db) {
    && db' == db.(imports := db'.imports)
    && db'.imports.Keys == db.imports.Keys
    && (forall i <- db.imports ::
          || db'.imports[i] == db.imports[i]
          || (&& db.imports[i].status == Running
              && SameImport(db.imports[i], db'.imports[i])
              && db'.imports[i].attempt == db.imports[i].attempt))
  }

  lemma UpdatePreserves(s: System, db': Db)
    requires Inv(s) && Updates(s.db, db')
    ensures Inv(s.(db := db')) && Evolves(s.db, db')
  {
    assert Evolves(s.db, db');
    EvolvedGenerations(s.db, db');
    EvolvePreserves(s, db');
  }

  /** A dataset's row is amended: archived while nothing is active, or renamed. */
  ghost predicate Amends(db: Db, db': Db, d: Id) {
    && d in db.datasets && d in db'.datasets
    && (db'.datasets[d].status == db.datasets[d].status || (db'.datasets[d].status == Archived && !HasActive(db, d)))
    && db' == db.(datasets := db.datasets[d := db.datasets[d].(
                    status := db'.datasets[d].status, name := db'.datasets[d].name, revision := db'.datasets[d].revision)])
  }

  lemma AmendsEvolve(db: Db, db': Db, d: Id)
    requires ImportsOk(db) && DatasetsOk(db) && Amends(db, db', d)
    ensures DatasetsEvolve(db, db') && ImportsOk(db') && Evolves(db, db')
  {
    assert db'.imports == db.imports && db'.datasets.Keys == db.datasets.Keys;
  }

  lemma AmendPreserves(s: System, db': Db, d: Id)
    requires Inv(s) && (db' == s.db || Amends(s.db, db', d))
    ensures Inv(s.(db := db')) && Evolves(s.db, db') && db'.tables == s.db.tables
  {
    hide Inv;
    if db' == s.db {
      assert s.(db := db') == s;
    } else {
      AmendedInv(s, db', d);
    }
  }

  lemma AmendedInv(s: System, db': Db, d: Id)
    requires Inv(s) && Amends(s.db, db', d)
    ensures Inv(s.(db := db')) && Evolves(s.db, db') && db'.tables == s.db.tables
  {
    AmendsEvolve(s.db, db', d);
    EvolvedGenerations(s.db, db');
    EvolvePreserves(s, db');
  }

  lemma ArchivePreserves(s: System, d: Id, revision: nat)
    requires Inv(s)
    ensures Inv(s.(db := Archive(s.db, d, revision).0))
    ensures Evolves(s.db, Archive(s.db, d, revision).0) && Archive(s.db, d, revision).0.tables == s.db.tables
  {
    hide Inv, HasActive;
    AmendPreserves(s, Archive(s.db, d, revision).0, d);
  }

  lemma UpdateMetadataPreserves(s: System, d: Id, revision: nat, name: string, wellFormed: bool)
    requires Inv(s)
    ensures var db' := UpdateMetadata(s.db, d, revision, name, wellFormed).0;
            Inv(s.(db := db')) && Evolves(s.db, db') && db'.tables == s.db.tables
  {
    hide Inv, HasActive;
    AmendPreserves(s, UpdateMetadata(s.db, d, revision, name, wellFormed).0, d);
  }
}
