/**
 What every step of the import protocol keeps, and the result: in every reachable state the view of each dataset is
 the list its publications made, atomically replaced or extended, whatever zombie attempts and old cleanup lists do.
*/
module ImportInvariants {
  import opened Options
  import opened ImportTables
  import opened ImportProtocol

  ghost predicate ImportsOk(db: Db) {
    && (forall d <- db.datasets :: d < db.nextDataset)
    && (forall i <- db.imports ::
          && i < db.nextImport
          && db.imports[i].dataset in db.datasets
          && (db.imports[i].status == Succeeded <==> db.imports[i].published.Some?)
          && (db.imports[i].published.Some? ==> db.imports[i].published.value == db.imports[i].attempt))
    && (forall i, j | i in db.imports && j in db.imports && IsActive(db.imports[i]) && IsActive(db.imports[j]) ::
          db.imports[i].dataset == db.imports[j].dataset ==> i == j)
  }

  ghost predicate GenerationOf(db: Db, d: Id, g: Id) {
    && g in db.imports
    && db.imports[g].status == Succeeded
    && db.imports[g].mode == Replace
    && db.imports[g].dataset == d
  }

  ghost predicate GenerationOk(db: Db, i: Id)
    requires i in db.imports
  {
    if db.imports[i].mode == Replace then db.imports[i].generation == i
    else GenerationOf(db, db.imports[i].dataset, db.imports[i].generation)
  }

  ghost predicate GenerationsOk(db: Db) {
    forall i {:trigger GenerationOk(db, i)} | i in db.imports :: GenerationOk(db, i)
  }

  ghost predicate DatasetOk(db: Db, d: Id)
    requires d in db.datasets
  {
    && (db.datasets[d].current.Some? ==>
          && GenerationOf(db, d, db.datasets[d].current.value)
          && db.datasets[d].status != Provisioning
          && d in db.tables)
    && (db.datasets[d].current.None? ==>
          db.datasets[d].status != Active && db.datasets[d].rowCount == 0 && !HasSucceeded(db, d))
  }

  ghost predicate DatasetsOk(db: Db) {
    && (forall d {:trigger DatasetOk(db, d)} | d in db.datasets :: DatasetOk(db, d))
    && db.tables.Keys <= db.datasets.Keys
  }

  ghost predicate WorkerOk(db: Db, k: Key, w: Worker) {
    && k == Key(w.job.importId, w.job.attempt)
    && w.job.importId in db.imports
    && w.job.dataset in db.datasets
    && w.job.attempt <= db.imports[w.job.importId].attempt
    && w.job.dataset == db.imports[w.job.importId].dataset
    && w.job.mode == db.imports[w.job.importId].mode
    && (w.ensured ==> w.columns.Some?)
    && (!w.ensured ==> w.sent == [])
    && |w.sent| <= MAX_DATA_ROWS
    && (IsActive(db.imports[w.job.importId]) ==>
          && (w.columns.Some? ==> w.columns.value == db.datasets[w.job.dataset].columns)
          && (w.ensured ==> && w.job.dataset in db.tables
                            && db.tables[w.job.dataset].columns == db.datasets[w.job.dataset].columns))
  }

  /** The worker that published an import is done with it. */
  ghost predicate PublisherOk(db: Db, workers: map<Key, Worker>, i: Id)
    requires i in db.imports
  {
    db.imports[i].status == Succeeded ==>
      && Key(i, db.imports[i].attempt) in workers
      && workers[Key(i, db.imports[i].attempt)].phase == Finished
  }

  ghost predicate WorkersOk(s: System) {
    && (forall k {:trigger WorkerOk(s.db, k, s.workers[k])} | k in s.workers :: WorkerOk(s.db, k, s.workers[k]))
    && (forall i {:trigger PublisherOk(s.db, s.workers, i)} | i in s.db.imports :: PublisherOk(s.db, s.workers, i))
  }

  ghost predicate RowsOk(s: System) {
    forall d, n | d in s.db.tables && 0 <= n < |s.db.tables[d].rows| ::
      var k := s.db.tables[d].rows[n].key;
      k in s.workers && s.workers[k].job.dataset == d && s.workers[k].ensured
  }

  /** The attempt that may still publish. */
  ghost predicate IsCurrent(db: Db, k: Key) {
    k.importId in db.imports && db.imports[k.importId].status == Running && db.imports[k.importId].attempt == k.attempt
  }

  ghost predicate StagedOk(s: System) {
    forall k <- s.workers :: s.workers[k].phase == Live && IsCurrent(s.db, k) ==>
      Select(RowsOf(s.db, s.workers[k].job.dataset), {k}) == s.workers[k].sent
  }

  /** No row of `keys` comes after a row of `k`. */
  ghost predicate After(rows: seq<Row>, keys: set<Key>, k: Key) {
    forall p, q | 0 <= p < q < |rows| :: rows[p].key == k ==> rows[q].key !in keys
  }

  ghost predicate OrderOk(s: System) {
    forall k | k in s.workers && IsCurrent(s.db, k) ::
      var d := s.workers[k].job.dataset;
      After(RowsOf(s.db, d), VisibleKeys(s.db, d), k)
  }

  ghost predicate CountOk(db: Db, d: Id)
    requires d in db.datasets
  {
    |View(db, d)| == db.datasets[d].rowCount <= MAX_DATA_ROWS
  }

  ghost predicate CountsOk(db: Db) {
    forall d {:trigger CountOk(db, d)} | d in db.datasets :: CountOk(db, d)
  }

  /** Failed, or published into a generation that is no longer the dataset's. */
  ghost predicate Gone(db: Db, i: Id) {
    && i in db.imports
    && (|| db.imports[i].status == Failed
        || (&& db.imports[i].status == Succeeded
            && db.imports[i].dataset in db.datasets
            && db.datasets[db.imports[i].dataset].current != Some(db.imports[i].generation)))
  }

  ghost predicate ItemOk(db: Db, item: CleanupItem) {
    && item.importId in db.imports
    && !IsActive(db.imports[item.importId])
    && (item.retired || item.published.None? ==> Gone(db, item.importId))
    && (!item.retired && item.published.Some? ==> item.published == db.imports[item.importId].published)
  }

  ghost predicate ItemsOk(s: System) {
    forall item {:trigger ItemOk(s.db, item)} | item in s.items :: ItemOk(s.db, item)
  }

  ghost predicate Inv(s: System) {
    && ImportsOk(s.db)
    && GenerationsOk(s.db)
    && DatasetsOk(s.db)
    && WorkersOk(s)
    && RowsOk(s)
    && StagedOk(s)
    && OrderOk(s)
    && CountsOk(s.db)
    && ItemsOk(s)
  }

  // ---------------------------------------------------------------------------------------------------------
  // Selecting rows
  // ---------------------------------------------------------------------------------------------------------

  lemma {:induction false} SelectConcat(a: seq<Row>, b: seq<Row>, keys: set<Key>)
    ensures Select(a + b, keys) == Select(a, keys) + Select(b, keys)
  {
    if b == [] {
      assert a + b == a;
    } else {
      var n := |b| - 1;
      assert (a + b)[..|a + b| - 1] == a + b[..n];
      SelectConcat(a, b[..n], keys);
    }
  }

  lemma {:induction false} SelectNone(rows: seq<Row>, keys: set<Key>)
    requires forall n | 0 <= n < |rows| :: rows[n].key !in keys
    ensures Select(rows, keys) == []
  {
    if rows != [] { SelectNone(rows[..|rows| - 1], keys); }
  }

  lemma {:induction false} SelectNew(key: Key, first: nat, batch: seq<(nat, Values)>)
    ensures Select(NewRows(key, first, batch), {key}) == ValuesOf(batch)
  {
    if batch != [] {
      var n := |batch| - 1;
      assert NewRows(key, first, batch)[..n] == NewRows(key, first, batch[..n]);
      SelectNew(key, first, batch[..n]);
      assert ValuesOf(batch) == ValuesOf(batch[..n]) + [batch[n].1];
    }
  }

  /** Rows staged after everything visible extend the visible list. */
  lemma {:induction false} SelectExtend(rows: seq<Row>, keys: set<Key>, k: Key)
    requires After(rows, keys, k) && k !in keys
    ensures Select(rows, keys + {k}) == Select(rows, keys) + Select(rows, {k})
  {
    if rows != [] {
      var rest, last := rows[..|rows| - 1], rows[|rows| - 1];
      SelectExtend(rest, keys, k);
      if last.key in keys {
        forall n | 0 <= n < |rest| ensures rest[n].key !in {k} {
          assert rest[n] == rows[n];
        }
        SelectNone(rest, {k});
      }
    }
  }

  lemma {:induction false} SelectWithout(rows: seq<Row>, item: CleanupItem, doomed: set<nat>, keys: set<Key>)
    requires forall k <- keys :: !Matches(item, k)
    ensures Select(Without(rows, item, doomed), keys) == Select(rows, keys)
  {
    if rows != [] {
      var rest, last := rows[..|rows| - 1], rows[|rows| - 1];
      SelectWithout(rest, item, doomed, keys);
      var kept := if Matches(item, last.key) && last.rowId in doomed then [] else [last];
      SelectConcat(Without(rest, item, doomed), kept, keys);
    }
  }

  /** Deleting keeps the other rows, in order. */
  lemma {:induction false} WithoutKeeps(rows: seq<Row>, item: CleanupItem, doomed: set<nat>)
    ensures forall row <- Without(rows, item, doomed) :: row in rows
    ensures forall keys, k :: After(rows, keys, k) ==> After(Without(rows, item, doomed), keys, k)
  {
    if rows != [] {
      var rest, last := rows[..|rows| - 1], rows[|rows| - 1];
      WithoutKeeps(rest, item, doomed);
      var left := Without(rest, item, doomed);
      forall keys, k | After(rows, keys, k) ensures After(Without(rows, item, doomed), keys, k) {
        assert After(rest, keys, k);
        forall p | 0 <= p < |left| && left[p].key == k ensures last.key !in keys {
          assert left[p] in rest;
          var n :| 0 <= n < |rest| && rest[n] == left[p];
          assert rows[n].key == k;
        }
      }
    }
  }

  // ---------------------------------------------------------------------------------------------------------
  // Steps that change no view
  // ---------------------------------------------------------------------------------------------------------

  /** An update of import rows that keeps what the rest of the system relies on. */
  ghost predicate SameImport(m: Import, m': Import) {
    && m'.dataset == m.dataset
    && m'.mode == m.mode
    && m'.generation == m.generation
    && m'.published == m.published
    && (m.status == Succeeded <==> m'.status == Succeeded)
    && (m.status == Failed ==> m'.status == Failed)
    && m.attempt <= m'.attempt
  }

  ghost predicate Evolves(db: Db, db': Db) {
    && db.imports.Keys <= db'.imports.Keys
    && (forall i <- db.imports :: SameImport(db.imports[i], db'.imports[i]))
    && (forall i | i in db'.imports && i !in db.imports :: db'.imports[i].status == Queued)
    && db.datasets.Keys <= db'.datasets.Keys
    && (forall d <- db.datasets :: db'.datasets[d].current == db.datasets[d].current)
    && (forall d | d in db'.datasets && d !in db.datasets :: db'.datasets[d].current.None?)
  }

  lemma EvolvesKeepsKeys(db: Db, db': Db, d: Id)
    requires ImportsOk(db) && Evolves(db, db')
    ensures VisibleKeys(db', d) == VisibleKeys(db, d)
  {
    forall i ensures Shown(db', d, i) <==> Shown(db, d, i) {
      if i in db.imports {
        assert SameImport(db.imports[i], db'.imports[i]);
      }
    }
    forall k: Key ensures k in VisibleKeys(db', d) <==> k in VisibleKeys(db, d) {
      assert k in VisibleKeys(db, d) <==> Shown(db, d, k.importId) && db.imports[k.importId].published == Some(k.attempt);
      assert k in VisibleKeys(db', d) <==> Shown(db', d, k.importId) && db'.imports[k.importId].published == Some(k.attempt);
    }
  }
}
