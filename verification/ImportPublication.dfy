/**
 Staging, publishing and cleaning keep the invariant, and only a publication changes a view: late inserts land behind
 attempts that can no longer publish, and old cleanup candidates match nothing alive.
*/
module ImportPublication {
  import opened Options
  import opened ImportTables
  import opened ImportProtocol
  import opened ImportInvariants
  import opened ImportSteps
  import opened ImportWorkerSteps

  lemma VisibleFinished(s: System, d: Id, k: Key)
    requires ImportsOk(s.db) && WorkersOk(s) && k in VisibleKeys(s.db, d)
    ensures k in s.workers && s.workers[k].phase == Finished
  {
    assert Shown(s.db, d, k.importId) && PublisherOk(s.db, s.workers, k.importId);
  }

  // ---------------------------------------------------------------------------------------------------------
  // Insert
  // ---------------------------------------------------------------------------------------------------------

  lemma {:induction false} AfterAppend(rows: seq<Row>, more: seq<Row>, keys: set<Key>, k: Key)
    requires After(rows, keys, k)
    requires forall n | 0 <= n < |more| :: more[n].key !in keys
    ensures After(rows + more, keys, k)
  {
    forall p, q | 0 <= p < q < |rows + more| && (rows + more)[p].key == k ensures (rows + more)[q].key !in keys {
      if q < |rows| { assert rows[p].key == k; } else { assert (rows + more)[q] == more[q - |rows|]; }
    }
  }

  ghost predicate Extends(db: Db, db': Db, d: Id, more: seq<Row>) {
    && d in db.tables
    && d in db'.tables
    && db' == db.(tables := db.tables[d := db'.tables[d]])
    && db'.tables[d].columns == db.tables[d].columns
    && db'.tables[d].rows == db.tables[d].rows + more
  }

  lemma ExtendedViews(db: Db, db': Db, d: Id, more: seq<Row>, k: Key)
    requires Extends(db, db', d, more)
    requires forall n | 0 <= n < |more| :: more[n].key == k
    requires k !in VisibleKeys(db, d)
    ensures forall e :: VisibleKeys(db', e) == VisibleKeys(db, e)
    ensures forall e :: View(db', e) == View(db, e)
  {
    forall e ensures VisibleKeys(db', e) == VisibleKeys(db, e) && View(db', e) == View(db, e) {
      assert forall i :: Shown(db', e, i) <==> Shown(db, e, i);
      assert VisibleKeys(db', e) == VisibleKeys(db, e);
      if e == d {
        SelectConcat(db.tables[d].rows, more, VisibleKeys(db, d));
        SelectNone(more, VisibleKeys(db, d));
      }
    }
  }

  /** Rows of one unfinished attempt arrive, whether or not their worker hears of it. */
  lemma ExtendedRows(s: System, db': Db, k: Key, batch: seq<(nat, Values)>, first: nat, w': Worker)
    requires ImportsOk(s.db) && WorkersOk(s) && RowsOk(s) && StagedOk(s) && OrderOk(s)
    requires k in s.workers && s.workers[k].phase != Finished && s.workers[k].ensured
    requires Extends(s.db, db', s.workers[k].job.dataset, NewRows(k, first, batch))
    requires w'.job == s.workers[k].job && w'.ensured
    requires w'.phase == Live ==> s.workers[k].phase == Live && w'.sent == s.workers[k].sent + ValuesOf(batch)
    ensures var s' := s.(db := db', workers := s.workers[k := w']); RowsOk(s') && StagedOk(s') && OrderOk(s')
    ensures forall e :: View(db', e) == View(s.db, e)
  {
    var s' := s.(db := db', workers := s.workers[k := w']);
    var d, more := s.workers[k].job.dataset, NewRows(k, first, batch);
    assert k !in VisibleKeys(s.db, d) by { if k in VisibleKeys(s.db, d) { VisibleFinished(s, d, k); } }
    ExtendedViews(s.db, db', d, more, k);
    forall j | j in s'.workers && IsCurrent(db', j)
      ensures var e := s'.workers[j].job.dataset; After(RowsOf(db', e), VisibleKeys(db', e), j)
      ensures s'.workers[j].phase == Live ==>
                Select(RowsOf(db', s'.workers[j].job.dataset), {j}) == s'.workers[j].sent
    {
      assert IsCurrent(s.db, j);
      var e := s.workers[j].job.dataset;
      if e == d {
        AfterAppend(s.db.tables[d].rows, more, VisibleKeys(s.db, d), j);
        SelectConcat(s.db.tables[d].rows, more, {j});
        if j == k { SelectNew(k, first, batch); } else { SelectNone(more, {j}); }
      }
    }
  }

  ghost predicate OnlyRows(db: Db, db': Db) {
    && db' == db.(tables := db'.tables)
    && db'.tables.Keys == db.tables.Keys
    && (forall d <- db.tables :: db'.tables[d].columns == db.tables[d].columns)
  }

  lemma InsertExtends(db: Db, d: Id, k: Key, batch: seq<(nat, Values)>)
    requires d in db.tables
    ensures Extends(db, Insert(db, d, k, batch), d, NewRows(k, db.tables[d].nextRow, batch))
    ensures OnlyRows(db, Insert(db, d, k, batch))
  {
  }

  ghost predicate SendsMore(w: Worker, w': Worker, batch: seq<(nat, Values)>) {
    && w.ensured
    && w.phase != Finished
    && w' == w.(sent := w'.sent, phase := w'.phase)
    && |w'.sent| <= MAX_DATA_ROWS
    && (w'.phase == Live ==> w.phase == Live && w'.sent == w.sent + ValuesOf(batch))
  }

  lemma InsertedPreserves(s: System, k: Key, batch: seq<(nat, Values)>, w': Worker)
    requires Inv(s) && k in s.workers && SendsMore(s.workers[k], w', batch)
    requires s.workers[k].job.dataset in s.db.tables
    ensures var db' := Insert(s.db, s.workers[k].job.dataset, k, batch);
            && Inv(s.(db := db', workers := s.workers[k := w']))
            && (forall e :: View(db', e) == View(s.db, e))
  {
    var d := s.workers[k].job.dataset;
    var db' := Insert(s.db, d, k, batch);
    var s' := s.(db := db', workers := s.workers[k := w']);
    InsertExtends(s.db, d, k, batch);
    ExtendedRows(s, db', k, batch, s.db.tables[d].nextRow, w');
    InsertedWorkers(s, db', k, batch, w');
    RowsChangePreserves(s, s');
  }

  lemma InsertedWorkers(s: System, db': Db, k: Key, batch: seq<(nat, Values)>, w': Worker)
    requires WorkersOk(s) && OnlyRows(s.db, db') && k in s.workers && SendsMore(s.workers[k], w', batch)
    ensures WorkersOk(s.(db := db', workers := s.workers[k := w']))
  {
    UnchangedWorkers(s, db');
    var mid := s.(db := db');
    assert WorkerOk(mid.db, k, mid.workers[k]);
    UpdatedWorker(mid, k, w');
    assert s.(db := db', workers := s.workers[k := w']) == WithWorker(mid, k, w');
  }

  lemma InsertPreserves(s: System, k: Key, batch: seq<(nat, Values)>, acknowledged: bool)
    requires Inv(s) && k in s.workers
    ensures Inv(InsertStep(s, k, batch, acknowledged))
    ensures forall e :: View(InsertStep(s, k, batch, acknowledged).db, e) == View(s.db, e)
  {
    var s' := InsertStep(s, k, batch, acknowledged);
    var w, w' := s.workers[k], s'.workers[k];
    assert WorkerOk(s.db, k, w);
    if s' == s {
    } else if w.job.dataset !in s.db.tables {
      WorkerPreserves(s, k, w');
      assert s' == WithWorker(s, k, w');
    } else {
      InsertedPreserves(s, k, batch, w');
    }
  }

  lemma UnchangedWorkers(s: System, db': Db)
    requires WorkersOk(s)
    requires OnlyRows(s.db, db')
    ensures WorkersOk(s.(db := db'))
  {
    var s' := s.(db := db');
    forall k | k in s.workers ensures WorkerOk(db', k, s.workers[k]) { assert WorkerOk(s.db, k, s.workers[k]); }
    forall i | i in db'.imports ensures PublisherOk(s'.db, s'.workers, i) { assert PublisherOk(s.db, s.workers, i); }
  }

  lemma UpdatedWorker(s: System, k: Key, w: Worker)
    requires WorkersOk(s) && k in s.workers && WorkerOk(s.db, k, w)
    requires s.workers[k].phase != Finished
    ensures WorkersOk(WithWorker(s, k, w))
  {
    var s' := WithWorker(s, k, w);
    forall j | j in s'.workers ensures WorkerOk(s'.db, j, s'.workers[j]) {
      assert j != k ==> WorkerOk(s.db, j, s.workers[j]);
    }
    forall i | i in s'.db.imports ensures PublisherOk(s'.db, s'.workers, i) { assert PublisherOk(s.db, s.workers, i); }
  }

  /** What depends on the dataset and import rows alone. */
  lemma UnchangedMetadata(s: System, s': System)
    requires ImportsOk(s.db) && GenerationsOk(s.db) && DatasetsOk(s.db) && CountsOk(s.db) && ItemsOk(s)
    requires s'.db == s.db.(tables := s'.db.tables) && s'.items == s.items
    requires s'.db.tables.Keys == s.db.tables.Keys
    requires forall e :: View(s'.db, e) == View(s.db, e)
    ensures ImportsOk(s'.db) && GenerationsOk(s'.db) && DatasetsOk(s'.db) && CountsOk(s'.db) && ItemsOk(s')
  {
    var db, db' := s.db, s'.db;
    forall e, g ensures GenerationOf(db', e, g) == GenerationOf(db, e, g) {}
    forall e ensures HasSucceeded(db', e) == HasSucceeded(db, e) {}
    forall i | i in db'.imports ensures GenerationOk(db', i) { assert GenerationOk(db, i); }
    forall e | e in db'.datasets ensures DatasetOk(db', e) { assert DatasetOk(db, e); }
    forall item | item in s'.items ensures ItemOk(db', item) { assert ItemOk(db, item); }
    forall e | e in db'.datasets ensures CountOk(db', e) { assert View(db', e) == View(db, e) && CountOk(db, e); }
  }

  // ---------------------------------------------------------------------------------------------------------
  // Cleanup
  // ---------------------------------------------------------------------------------------------------------

  lemma ListCleanupPreserves(s: System, grace: nat, now: Time)
    requires Inv(s)
    ensures Inv(s.(items := s.items + CleanupCandidates(s.db, grace, now)))
  {
    var s' := s.(items := s.items + CleanupCandidates(s.db, grace, now));
    forall item | item in s'.items ensures ItemOk(s.db, item) {
      assert item in s.items ==> ItemOk(s.db, item);
    }
  }

  /** A candidate, however old the list, matches no row a reader sees and none an active attempt staged. */
  lemma ItemMatchesNothingLive(s: System, item: CleanupItem, d: Id, k: Key)
    requires ImportsOk(s.db) && ItemsOk(s) && item in s.items
    requires k in VisibleKeys(s.db, d) || IsCurrent(s.db, k)
    ensures !Matches(item, k)
  {
    assert ItemOk(s.db, item);
    if k in VisibleKeys(s.db, d) { assert Shown(s.db, d, k.importId); }
  }

  lemma CleanedViews(s: System, item: CleanupItem, doomed: set<nat>)
    requires ImportsOk(s.db) && ItemsOk(s) && item in s.items
    ensures var db' := CleanupRows(s.db, item, doomed);
            && (forall e :: VisibleKeys(db', e) == VisibleKeys(s.db, e))
            && (forall e :: View(db', e) == View(s.db, e))
  {
    var db' := CleanupRows(s.db, item, doomed);
    forall e ensures VisibleKeys(db', e) == VisibleKeys(s.db, e) && View(db', e) == View(s.db, e) {
      assert forall i :: Shown(db', e, i) <==> Shown(s.db, e, i);
      assert VisibleKeys(db', e) == VisibleKeys(s.db, e);
      forall k <- VisibleKeys(s.db, e) ensures !Matches(item, k) { ItemMatchesNothingLive(s, item, e, k); }
      SelectWithout(RowsOf(s.db, e), item, doomed, VisibleKeys(s.db, e));
    }
  }

  lemma CleanedRows(s: System, item: CleanupItem, doomed: set<nat>)
    requires ImportsOk(s.db) && WorkersOk(s) && RowsOk(s) && StagedOk(s) && OrderOk(s) && ItemsOk(s) && item in s.items
    ensures var s' := s.(db := CleanupRows(s.db, item, doomed)); RowsOk(s') && StagedOk(s') && OrderOk(s')
  {
    var s' := s.(db := CleanupRows(s.db, item, doomed));
    CleanedViews(s, item, doomed);
    forall d { WithoutKeeps(RowsOf(s.db, d), item, doomed); }
    forall k | k in s'.workers && IsCurrent(s'.db, k)
      ensures var e := s'.workers[k].job.dataset; After(RowsOf(s'.db, e), VisibleKeys(s'.db, e), k)
      ensures Select(RowsOf(s'.db, s'.workers[k].job.dataset), {k})
           == Select(RowsOf(s.db, s.workers[k].job.dataset), {k})
    {
      assert IsCurrent(s.db, k);
      ItemMatchesNothingLive(s, item, s.workers[k].job.dataset, k);
      SelectWithout(RowsOf(s.db, s.workers[k].job.dataset), item, doomed, {k});
    }
    forall d, n | d in s'.db.tables && 0 <= n < |s'.db.tables[d].rows|
      ensures var k := s'.db.tables[d].rows[n].key;
              k in s'.workers && s'.workers[k].job.dataset == d && s'.workers[k].ensured
    {
      WithoutKeeps(s.db.tables[d].rows, item, doomed);
      assert s'.db.tables[d].rows[n] in s.db.tables[d].rows;
    }
  }

  lemma RowsChangePreserves(s: System, s': System)
    requires Inv(s) && OnlyRows(s.db, s'.db) && s'.items == s.items
    requires WorkersOk(s') && RowsOk(s') && StagedOk(s') && OrderOk(s')
    requires forall e :: View(s'.db, e) == View(s.db, e)
    ensures Inv(s')
  {
    UnchangedMetadata(s, s');
  }

  lemma CleanupOnlyRows(db: Db, item: CleanupItem, doomed: set<nat>)
    ensures OnlyRows(db, CleanupRows(db, item, doomed))
  {
  }

  lemma CleanupPreserves(s: System, item: CleanupItem, doomed: set<nat>)
    requires Inv(s) && item in s.items
    ensures Inv(s.(db := CleanupRows(s.db, item, doomed)))
    ensures forall e :: View(CleanupRows(s.db, item, doomed), e) == View(s.db, e)
  {
    var s' := s.(db := CleanupRows(s.db, item, doomed));
    CleanedViews(s, item, doomed);
    CleanedRows(s, item, doomed);
    CleanupOnlyRows(s.db, item, doomed);
    UnchangedWorkers(s, s'.db);
    RowsChangePreserves(s, s');
  }
}
