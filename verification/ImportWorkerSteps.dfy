/**
 The events of workers keep the invariant: claims open fresh attempts, readings go out of date harmlessly, and the DDL
 step resets a table only while nothing was ever published from it.
*/
module ImportWorkerSteps {
  import opened Options
  import opened ImportTables
  import opened ImportProtocol
  import opened ImportInvariants
  import opened ImportSteps

  // ---------------------------------------------------------------------------------------------------------
  // Claim
  // ---------------------------------------------------------------------------------------------------------

  ghost predicate Claims(s: System, s': System, i: Id, job: Job) {
    && i in s.db.imports
    && s.db.imports[i].status == Queued
    && i in s'.db.imports
    && s'.db == s.db.(imports := s.db.imports[i := s'.db.imports[i]])
    && SameImport(s.db.imports[i], s'.db.imports[i])
    && s'.db.imports[i].status == Running
    && s'.db.imports[i].attempt == s.db.imports[i].attempt + 1
    && job.importId == i
    && job.attempt == s'.db.imports[i].attempt
    && job.dataset == s.db.imports[i].dataset
    && job.mode == s.db.imports[i].mode
    && s'.workers == s.workers[Key(i, job.attempt) := Worker(job, None, None, false, [], Live)]
    && s'.items == s.items
  }

  lemma ClaimedWorkers(s: System, s': System, i: Id, job: Job)
    requires ImportsOk(s.db) && WorkersOk(s) && Claims(s, s', i, job)
    ensures WorkersOk(s') && Key(i, job.attempt) !in s.workers
  {
    var n := Key(i, job.attempt);
    forall k | k in s.workers ensures k != n { assert WorkerOk(s.db, k, s.workers[k]); }
    forall k | k in s'.workers ensures WorkerOk(s'.db, k, s'.workers[k]) {
      if k != n { assert WorkerOk(s.db, k, s.workers[k]); }
    }
    forall j | j in s'.db.imports ensures PublisherOk(s'.db, s'.workers, j) { assert PublisherOk(s.db, s.workers, j); }
  }

  lemma ClaimedRows(s: System, s': System, i: Id, job: Job)
    requires ImportsOk(s.db) && WorkersOk(s) && RowsOk(s) && StagedOk(s) && OrderOk(s)
    requires Claims(s, s', i, job) && Key(i, job.attempt) !in s.workers
    ensures RowsOk(s') && StagedOk(s') && OrderOk(s')
  {
    var n := Key(i, job.attempt);
    ClaimedEvolves(s, s', i, job);
    hide Evolves, NoNewActive, ImportsOk, Select;
    forall m | 0 <= m < |RowsOf(s.db, job.dataset)| ensures RowsOf(s.db, job.dataset)[m].key != n {
      assert s.db.tables[job.dataset].rows[m].key in s.workers;
    }
    SelectNone(RowsOf(s.db, job.dataset), {n});
    forall k | k in s'.workers && IsCurrent(s'.db, k)
      ensures var d := s'.workers[k].job.dataset; After(RowsOf(s'.db, d), VisibleKeys(s'.db, d), k)
      ensures k == n || IsCurrent(s.db, k)
    {
      EvolvesKeepsKeys(s.db, s'.db, s'.workers[k].job.dataset);
      if k != n { assert WorkerOk(s.db, k, s.workers[k]); }
    }
  }

  lemma ClaimedImports(s: System, s': System, i: Id, job: Job)
    requires ImportsOk(s.db) && GenerationsOk(s.db) && DatasetsOk(s.db) && Claims(s, s', i, job)
    ensures Evolves(s.db, s'.db) && DatasetsEvolve(s.db, s'.db) && NoNewActive(s.db, s'.db)
    ensures ImportsOk(s'.db) && GenerationsOk(s'.db)
  {
    ClaimedEvolves(s, s', i, job);
    ClaimedTables(s, s', i, job);
    hide Evolves, ImportsOk, DatasetsOk, DatasetsEvolve, NoNewActive;
    EvolvedGenerations(s.db, s'.db);
  }

  lemma ClaimedEvolves(s: System, s': System, i: Id, job: Job)
    requires Claims(s, s', i, job)
    ensures Evolves(s.db, s'.db) && NoNewActive(s.db, s'.db)
  {
  }

  lemma ClaimedTables(s: System, s': System, i: Id, job: Job)
    requires ImportsOk(s.db) && Claims(s, s', i, job)
    ensures DatasetsEvolve(s.db, s'.db) && ImportsOk(s'.db)
  {
  }

  lemma ClaimPreserves(s: System, i: Id, owner: Owner, now: Time)
    requires Inv(s)
    ensures Inv(ClaimStep(s, i, owner, now))
    ensures Evolves(s.db, ClaimStep(s, i, owner, now).db) && ClaimStep(s, i, owner, now).db.tables == s.db.tables
  {
    var s' := ClaimStep(s, i, owner, now);
    if s' != s {
      var job := Claim(s.db, i, owner, now).1.value;
      assert Claims(s, s', i, job);
      ClaimedImports(s, s', i, job);
      EvolvedDatasets(s.db, s'.db);
      EvolvedCounts(s.db, s'.db);
      ClaimedWorkers(s, s', i, job);
      ClaimedRows(s, s', i, job);
      EvolvedItems(s, s'.db);
    }
  }

  // ---------------------------------------------------------------------------------------------------------
  // Steps that only change what a worker knows
  // ---------------------------------------------------------------------------------------------------------

  ghost predicate Learns(w: Worker, w': Worker) {
    && w'.job == w.job
    && w'.sent == w.sent
    && (w.ensured ==> w'.ensured)
    && (w'.phase == Live ==> w.phase == Live)
    && (w.phase == Finished ==> w'.phase == Finished)
  }

  ghost predicate Learned(s: System, s': System) {
    && s'.workers.Keys == s.workers.Keys
    && (forall k <- s.workers :: Learns(s.workers[k], s'.workers[k]))
  }

  lemma LearnedRows(s: System, s': System)
    requires RowsOk(s) && Learned(s, s') && s'.db.tables == s.db.tables
    ensures RowsOk(s')
  {
    forall d, n | d in s'.db.tables && 0 <= n < |s'.db.tables[d].rows|
      ensures var k := s'.db.tables[d].rows[n].key;
              k in s'.workers && s'.workers[k].job.dataset == d && s'.workers[k].ensured
    {
      var k := s.db.tables[d].rows[n].key;
      assert k in s.workers && Learns(s.workers[k], s'.workers[k]);
    }
  }

  lemma LearnedStaged(s: System, s': System)
    requires StagedOk(s) && OrderOk(s) && Learned(s, s') && s'.db == s.db
    ensures StagedOk(s') && OrderOk(s')
  {
    forall k | k in s'.workers && IsCurrent(s'.db, k)
      ensures var d := s'.workers[k].job.dataset; After(RowsOf(s'.db, d), VisibleKeys(s'.db, d), k)
      ensures s'.workers[k].phase == Live ==>
                Select(RowsOf(s'.db, s'.workers[k].job.dataset), {k}) == s'.workers[k].sent
    {
      assert Learns(s.workers[k], s'.workers[k]);
    }
  }

  lemma WorkerPreserves(s: System, k: Key, w: Worker)
    requires Inv(s) && k in s.workers && WorkerOk(s.db, k, w) && Learns(s.workers[k], w)
    ensures Inv(WithWorker(s, k, w))
  {
    var s' := WithWorker(s, k, w);
    assert Learned(s, s');
    LearnedRows(s, s');
    LearnedStaged(s, s');
    forall j | j in s'.workers ensures WorkerOk(s'.db, j, s'.workers[j]) {
      assert WorkerOk(s.db, j, s.workers[j]);
    }
    forall i | i in s'.db.imports ensures PublisherOk(s'.db, s'.workers, i) { assert PublisherOk(s.db, s.workers, i); }
  }

  lemma ReadPreserves(s: System, k: Key)
    requires Inv(s) && k in s.workers
    ensures Inv(ReadDatasetStep(s, k)) && ReadDatasetStep(s, k).db == s.db
    ensures Inv(ReadColumnsStep(s, k)) && ReadColumnsStep(s, k).db == s.db
  {
    assert WorkerOk(s.db, k, s.workers[k]);
    var s' := ReadDatasetStep(s, k);
    if s' != s { WorkerPreserves(s, k, s'.workers[k]); }
    s' := ReadColumnsStep(s, k);
    if s' != s { WorkerPreserves(s, k, s'.workers[k]); }
  }

  // ---------------------------------------------------------------------------------------------------------
  // DDL
  // ---------------------------------------------------------------------------------------------------------

  function WithTable(db: Db, d: Id, t: Option<Table>): Db {
    db.(tables := if t.Some? then db.tables[d := t.value] else db.tables - {d})
  }

  /** A dataset that published nothing and in which no active import has passed its own DDL step. */
  ghost predicate Resettable(s: System, d: Id) {
    && d in s.db.datasets
    && s.db.datasets[d].current.None?
    && (forall k <- s.workers :: s.workers[k].job.dataset == d && s.workers[k].ensured ==>
          k.importId in s.db.imports && !IsActive(s.db.imports[k.importId]))
  }

  lemma SameViewsElsewhere(db: Db, d: Id, t: Option<Table>)
    ensures forall e :: VisibleKeys(WithTable(db, d, t), e) == VisibleKeys(db, e)
    ensures forall e | e != d :: View(WithTable(db, d, t), e) == View(db, e)
  {
    var db' := WithTable(db, d, t);
    forall e ensures VisibleKeys(db', e) == VisibleKeys(db, e) {
      assert forall i :: Shown(db', e, i) <==> Shown(db, e, i);
    }
  }

  lemma ResetViews(s: System, d: Id, t: Option<Table>)
    requires Resettable(s, d) && CountsOk(s.db)
    ensures forall e :: View(WithTable(s.db, d, t), e) == View(s.db, e)
    ensures CountsOk(WithTable(s.db, d, t))
  {
    var db' := WithTable(s.db, d, t);
    SameViewsElsewhere(s.db, d, t);
    EmptyView(s.db, d);
    EmptyView(db', d);
    forall e | e in db'.datasets ensures CountOk(db', e) {
      assert View(db', e) == View(s.db, e) && CountOk(s.db, e);
    }
  }

  lemma ResetRows(s: System, d: Id, t: Option<Table>)
    requires WorkersOk(s) && RowsOk(s) && StagedOk(s) && OrderOk(s) && Resettable(s, d)
    requires t.Some? ==> t.value.rows == []
    ensures var s' := s.(db := WithTable(s.db, d, t)); RowsOk(s') && StagedOk(s') && OrderOk(s')
  {
    var s' := s.(db := WithTable(s.db, d, t));
    SameViewsElsewhere(s.db, d, t);
    forall k | k in s.workers && IsCurrent(s'.db, k)
      ensures var e := s.workers[k].job.dataset; After(RowsOf(s'.db, e), VisibleKeys(s'.db, e), k)
      ensures s.workers[k].phase == Live ==>
                Select(RowsOf(s'.db, s.workers[k].job.dataset), {k}) == s.workers[k].sent
    {
      assert WorkerOk(s.db, k, s.workers[k]) && IsCurrent(s.db, k);
      if s.workers[k].job.dataset == d { assert IsActive(s.db.imports[k.importId]); }
    }
  }

  lemma ResetWorkers(s: System, d: Id, t: Option<Table>)
    requires WorkersOk(s) && Resettable(s, d)
    ensures WorkersOk(s.(db := WithTable(s.db, d, t)))
  {
    var s' := s.(db := WithTable(s.db, d, t));
    forall k | k in s'.workers ensures WorkerOk(s'.db, k, s'.workers[k]) {
      assert WorkerOk(s.db, k, s.workers[k]);
    }
    forall i | i in s'.db.imports ensures PublisherOk(s'.db, s'.workers, i) { assert PublisherOk(s.db, s.workers, i); }
  }

  lemma ResetDatasets(s: System, d: Id, t: Option<Table>)
    requires DatasetsOk(s.db) && Resettable(s, d)
    ensures DatasetsOk(WithTable(s.db, d, t))
  {
    var db' := WithTable(s.db, d, t);
    forall e ensures HasSucceeded(db', e) == HasSucceeded(s.db, e) {}
    forall e, g ensures GenerationOf(db', e, g) == GenerationOf(s.db, e, g) {}
    forall e | e in db'.datasets ensures DatasetOk(db', e) { assert DatasetOk(s.db, e); }
  }

  lemma ResetPreserves(s: System, d: Id, t: Option<Table>)
    requires Inv(s) && Resettable(s, d)
    requires t.Some? ==> t.value.rows == []
    ensures Inv(s.(db := WithTable(s.db, d, t)))
    ensures forall e :: View(WithTable(s.db, d, t), e) == View(s.db, e)
  {
    var s' := s.(db := WithTable(s.db, d, t));
    ResetViews(s, d, t);
    ResetRows(s, d, t);
    ResetWorkers(s, d, t);
    ResetDatasets(s, d, t);
    forall item | item in s'.items ensures ItemOk(s'.db, item) { assert ItemOk(s.db, item); }
    forall i | i in s'.db.imports ensures GenerationOk(s'.db, i) { assert GenerationOk(s.db, i); }
  }

  /** The DDL of an out-of-date worker never reaches a table another attempt is filling. */
  lemma EnsureResets(s: System, k: Key)
    requires Inv(s) && k in s.workers
    requires s.workers[k].columns.Some?
    requires s.workers[k].job.dataset !in s.db.tables
             || (&& s.db.tables[s.workers[k].job.dataset].columns != s.workers[k].columns.value
                 && ResetAllowed(s.db, s.workers[k].job.dataset, k.importId))
    ensures Resettable(s, s.workers[k].job.dataset)
  {
    var d := s.workers[k].job.dataset;
    assert WorkerOk(s.db, k, s.workers[k]) && DatasetOk(s.db, d);
    forall j | j in s.workers && s.workers[j].job.dataset == d && s.workers[j].ensured
      ensures j.importId in s.db.imports && !IsActive(s.db.imports[j.importId])
    {
      assert WorkerOk(s.db, j, s.workers[j]);
    }
  }

  lemma EnsureEffect(db: Db, d: Id, i: Id, seen: DatasetStatus, columns: Columns, crash: bool)
    ensures var (db', ok) := Ensure(db, d, i, seen, columns, crash);
            && (ok ==> d in db'.tables && db'.tables[d].columns == columns)
            && (|| db' == db
                || (&& (exists t: Option<Table> :: db' == WithTable(db, d, t) && (t.Some? ==> t.value.rows == []))
                    && (d !in db.tables || (db.tables[d].columns != columns && ResetAllowed(db, d, i)))))
  {
    var (db', ok) := Ensure(db, d, i, seen, columns, crash);
    if db' != db {
      assert db' == WithTable(db, d, if d in db'.tables then Some(db'.tables[d]) else None);
    }
  }

  lemma EnsurePreserves(s: System, k: Key, crash: bool)
    requires Inv(s) && k in s.workers
    ensures Inv(EnsureStep(s, k, crash))
    ensures forall e :: View(EnsureStep(s, k, crash).db, e) == View(s.db, e)
    ensures EnsureStep(s, k, crash).db.imports == s.db.imports && EnsureStep(s, k, crash).db.datasets == s.db.datasets
  {
    var s' := EnsureStep(s, k, crash);
    if s' != s {
      var w := s.workers[k];
      var d := w.job.dataset;
      assert WorkerOk(s.db, k, w);
      EnsureEffect(s.db, d, w.job.importId, w.seen.value, w.columns.value, crash);
      var mid := s.(db := s'.db);
      if s'.db != s.db {
        var t: Option<Table> :| s'.db == WithTable(s.db, d, t) && (t.Some? ==> t.value.rows == []);
        EnsureResets(s, k);
        ResetPreserves(s, d, t);
      } else {
        assert mid == s;
      }
      assert WorkerOk(mid.db, k, mid.workers[k]);
      WorkerPreserves(mid, k, s'.workers[k]);
      assert s' == WithWorker(mid, k, s'.workers[k]);
    }
  }
}
