/** What the callers of single import transactions can rely on afterwards. */
module ImportEffects {
  import opened Options
  import opened ImportTables
  import opened ImportProtocol
  import opened ImportInvariants

  /** An owner that heartbeats keeps its claim through every stale sweep of the lease that follows. */
  lemma HeartbeatProtects(db: Db, job: Job, now: Time, staleAfter: nat, later: Time)
    requires later <= now + staleAfter
    ensures var (db', owned) := Heartbeat(db, job, now);
            && owned == Owned(db, job)
            && (owned ==> Owned(db', job) && Owned(RequeueStale(db', staleAfter, later), job))
            && (!owned ==> db' == db)
            && (forall d :: View(db', d) == View(db, d))
  {
    var db' := Heartbeat(db, job, now).0;
    forall d ensures View(db', d) == View(db, d) { SameView(db, db', d); }
  }

  lemma SameView(db: Db, db': Db, d: Id)
    requires db'.datasets == db.datasets && db'.tables == db.tables
    requires db'.imports.Keys == db.imports.Keys
    requires forall i <- db.imports ::
               && db'.imports[i].dataset == db.imports[i].dataset
               && (db'.imports[i].status == Succeeded <==> db.imports[i].status == Succeeded)
               && db'.imports[i].published == db.imports[i].published
               && db'.imports[i].generation == db.imports[i].generation
    ensures View(db', d) == View(db, d)
  {
    hide Select;
    forall i ensures Shown(db', d, i) <==> Shown(db, d, i) {}
    assert VisibleKeys(db', d) == VisibleKeys(db, d);
  }

  /**
   A stale sweep takes exactly the stale claims away; and a claim it took stays taken, even after the same process
   claims the import again.
  */
  lemma RequeueRevokes(db: Db, staleAfter: nat, now: Time, job: Job, owner: Owner, later: Time)
    ensures var swept := RequeueStale(db, staleAfter, now);
            && (Owned(swept, job) <==> Owned(db, job) && !IsStale(db.imports[job.importId], staleAfter, now))
            && (Owned(db, job) && !Owned(swept, job) ==>
                  && Claim(swept, job.importId, owner, later).1.Some?
                  && !Owned(Claim(swept, job.importId, owner, later).0, job))
            && (forall d :: View(swept, d) == View(db, d))
  {
    var swept := RequeueStale(db, staleAfter, now);
    forall d ensures View(swept, d) == View(db, d) { SameView(db, swept, d); }
  }

  /** Of several callers that saw the same revision only one can rename; and readers do not notice. */
  lemma RenamesOnce(db: Db, d: Id, revision: nat, name: string, other: string, input: Submission, e: Id)
    requires input.dataset == Some(d) && input.revision == revision
    ensures var (db', outcome) := UpdateMetadata(db, d, revision, name, true);
            && (outcome != Done ==> db' == db)
            && (outcome == Done ==>
                  && UpdateMetadata(db', d, revision, other, true) == (db', Conflict)
                  && Archive(db', d, revision) == (db', Conflict)
                  && Submit(db', input).0 == db')
            && View(db', e) == View(db, e)
  {
    hide Select, HasActive, HasSucceeded;
    var db' := UpdateMetadata(db, d, revision, name, true).0;
    forall i ensures Shown(db', e, i) <==> Shown(db, e, i) {}
    assert VisibleKeys(db', e) == VisibleKeys(db, e);
  }

  /** Cleaning deletes rows of the candidate's import only, and leaves the rest in its order. */
  lemma CleanupDeletesOnlyItem(db: Db, item: CleanupItem, doomed: set<nat>, d: Id, row: Row, keys: set<Key>)
    ensures var db' := CleanupRows(db, item, doomed);
            && (row in RowsOf(db', d) ==> row in RowsOf(db, d))
            && (row in RowsOf(db, d) && row !in RowsOf(db', d) ==>
                  d == item.dataset && Matches(item, row.key) && row.rowId in doomed)
            && ((forall k <- keys :: !Matches(item, k)) ==> Select(RowsOf(db', d), keys) == Select(RowsOf(db, d), keys))
  {
    hide Matches;
    if d == item.dataset && d in db.tables {
      var rows := db.tables[d].rows;
      WithoutKeeps(rows, item, doomed);
      if row in rows { WithoutTakes(rows, item, doomed, row); }
      if forall k <- keys :: !Matches(item, k) { SelectWithout(rows, item, doomed, keys); }
    }
  }

  lemma {:induction false} WithoutTakes(rows: seq<Row>, item: CleanupItem, doomed: set<nat>, row: Row)
    requires row in rows
    ensures row in Without(rows, item, doomed) || (Matches(item, row.key) && row.rowId in doomed)
  {
    hide Matches;
    var n := |rows| - 1;
    if rows[n] != row { WithoutTakes(rows[..n], item, doomed, row); }
  }

  /** Inserting appends the batch to what its attempt staged, and adds nothing to any other selection. */
  lemma InsertAppends(db: Db, d: Id, key: Key, batch: seq<(nat, Values)>, e: Id, keys: set<Key>)
    requires d in db.tables
    ensures var db' := Insert(db, d, key, batch);
            && Select(RowsOf(db', d), {key}) == Select(RowsOf(db, d), {key}) + ValuesOf(batch)
            && (key !in keys || e != d ==> Select(RowsOf(db', e), keys) == Select(RowsOf(db, e), keys))
  {
    var rows, more := db.tables[d].rows, NewRows(key, db.tables[d].nextRow, batch);
    SelectConcat(rows, more, {key});
    SelectNew(key, db.tables[d].nextRow, batch);
    if key !in keys {
      SelectConcat(rows, more, keys);
      SelectNone(more, keys);
      assert Select(rows, keys) + [] == Select(rows, keys);
    }
  }

  /** After its owner failed an import nobody can heartbeat, fail, publish or claim it, and readers see what they saw. */
  lemma FailEnds(db: Db, job: Job, now: Time, other: Job, rows: nat, owner: Owner, later: Time, d: Id)
    requires Owned(db, job) && other.importId == job.importId
    ensures var db' := Fail(db, job, now).0;
            && !Heartbeat(db', other, later).1 && !Fail(db', other, later).1
            && Publish(db', other, rows, later).0 == db' && Publish(db', other, rows, later).1 != Done
            && Claim(db', job.importId, owner, later) == (db', None)
            && View(db', d) == View(db, d)
  {
    SameView(db, Fail(db, job, now).0, d);
  }
}
