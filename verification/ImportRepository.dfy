/**
 The repository object as the program has it: transactions that read rows, write rows one statement at a time and
 roll back by restoring what they had written. Each method is proved to do exactly what its transaction function says.
*/
module ImportRepository {
  import opened Options
  import T = ImportTables

  class Repository {
    var datasets: map<T.Id, T.Dataset>
    var imports: map<T.Id, T.Import>
    var tables: map<T.Id, T.Table>
    var nextDataset: T.Id
    var nextImport: T.Id

    constructor ()
      ensures Snapshot() == T.EmptyDb
    {
      datasets, imports, tables, nextDataset, nextImport := map[], map[], map[], 0, 0;
    }

    function Snapshot(): T.Db
      reads this
    {
      T.Db(datasets, imports, tables, nextDataset, nextImport)
    }

    method Rollback(before: T.Db)
      modifies this
      ensures Snapshot() == before
    {
      datasets, imports, tables := before.datasets, before.imports, before.tables;
      nextDataset, nextImport := before.nextDataset, before.nextImport;
    }

    method Submit(input: T.Submission) returns (outcome: T.Outcome)
      modifies this
      ensures (Snapshot(), outcome) == T.Submit(old(Snapshot()), input)
    {
      if !input.wellFormed { return T.Invalid; }
      var before := Snapshot();
      var d;
      if input.dataset.None? {
        d := nextDataset;
        datasets := datasets[d := T.Dataset(input.name, T.Provisioning, 1, 1, input.columns, None, 0)];
        nextDataset := nextDataset + 1;
      } else {
        d := input.dataset.value;
        if d !in datasets { return T.NotFound; }
        var dataset := datasets[d];
        if dataset.status == T.Archived { return T.Inactive; }
        if input.revision != dataset.revision { return T.Conflict; }
        if dataset.status == T.Provisioning {
          if T.HasSucceeded(before, d) || dataset.current.Some? { return T.Conflict; }
          if T.HasActive(before, d) { return T.Conflict; }
          dataset := dataset.(schemaRevision := dataset.schemaRevision + 1, revision := dataset.revision + 1);
          if input.name != "" { dataset := dataset.(name := input.name); }
          datasets := datasets[d := dataset];
          datasets := datasets[d := dataset.(columns := [])];
          datasets := datasets[d := dataset.(columns := input.columns)];
          assert datasets == before.datasets[d := dataset.(columns := input.columns)];
        } else {
          if input.name != "" && input.name != dataset.name { return T.Invalid; }
          if input.columns != dataset.columns { return T.Invalid; }
        }
      }
      if !input.uploadUsable {
        Rollback(before);
        return T.NotFound;
      }
      if T.HasActive(Snapshot(), d) {
        Rollback(before);
        return T.Conflict;
      }
      var i := nextImport;
      var m := T.Import(d, input.mode, datasets[d].schemaRevision, i, T.Queued, 0, None, None, None, None);
      imports := imports[i := m];
      nextImport := nextImport + 1;
      if input.mode == T.Append {
        if datasets[d].status != T.Active || datasets[d].current.None? {
          Rollback(before);
          return T.Inactive;
        }
        imports := imports[i := m.(generation := datasets[d].current.value)];
        assert imports == before.imports[i := m.(generation := datasets[d].current.value)];
      }
      return T.Done;
    }

    method Claim(i: T.Id, owner: T.Owner, now: T.Time) returns (job: Option<T.Job>)
      modifies this
      ensures (Snapshot(), job) == T.Claim(old(Snapshot()), i, owner, now)
    {
      if i !in imports || imports[i].status != T.Queued { return None; }
      imports := imports[i := imports[i].(status := T.Running)];
      imports := imports[i := imports[i].(attempt := imports[i].attempt + 1)];
      imports := imports[i := imports[i].(owner := Some(owner), heartbeat := Some(now))];
      var m := imports[i];
      assert imports == old(imports)[i := m];
      return Some(T.Job(i, m.dataset, m.mode, m.attempt, m.schemaRevision, owner));
    }

    method Heartbeat(job: T.Job, now: T.Time) returns (owned: bool)
      modifies this`imports
      ensures (Snapshot(), owned) == T.Heartbeat(old(Snapshot()), job, now)
    {
      owned := T.Owned(Snapshot(), job);
      if owned {
        imports := imports[job.importId := imports[job.importId].(heartbeat := Some(now))];
      }
    }

    method RequeueStale(staleAfter: nat, now: T.Time)
      modifies this`imports
      ensures Snapshot() == T.RequeueStale(old(Snapshot()), staleAfter, now)
    {
      imports := map i | i in imports :: if T.IsStale(imports[i], staleAfter, now) then T.Requeued(imports[i]) else imports[i];
    }

    method Fail(job: T.Job, now: T.Time) returns (owned: bool)
      modifies this`imports
      ensures (Snapshot(), owned) == T.Fail(old(Snapshot()), job, now)
    {
      owned := T.Owned(Snapshot(), job);
      if owned {
        imports := imports[job.importId := imports[job.importId].(status := T.Failed)];
        imports := imports[job.importId := imports[job.importId].(finished := Some(now), heartbeat := Some(now))];
        assert imports == old(imports)[job.importId := imports[job.importId]];
      }
    }

    method Publish(job: T.Job, rows: nat, now: T.Time) returns (outcome: T.Outcome)
      modifies this`imports, this`datasets
      ensures (Snapshot(), outcome) == T.Publish(old(Snapshot()), job, rows, now)
    {
      if job.importId !in imports || job.dataset !in datasets { return T.NotFound; }
      var m, dataset := imports[job.importId], datasets[job.dataset];
      if m.status != T.Running || m.owner != Some(job.owner) || m.attempt != job.attempt
         || m.schemaRevision != dataset.schemaRevision || dataset.status == T.Archived
      {
        return T.ClaimLost;
      }
      if m.mode == T.Append && (dataset.current != Some(m.generation) || dataset.status != T.Active) {
        return T.Conflict;
      }
      var before := imports;
      imports := imports[job.importId := m.(status := T.Succeeded, published := Some(m.attempt), finished := Some(now),
                                            heartbeat := Some(now))];
      if m.mode == T.Replace {
        datasets := datasets[job.dataset := dataset.(
                               status := T.Active, current := Some(m.generation), rowCount := rows,
                               revision := dataset.revision + 1)];
      } else {
        if dataset.rowCount > T.Minus(T.MAX_DATA_ROWS, rows) {
          imports := before;
          return T.Invalid;
        }
        datasets := datasets[job.dataset := dataset.(
                               rowCount := dataset.rowCount + rows, revision := dataset.revision + 1)];
      }
      return T.Done;
    }

    method UpdateMetadata(d: T.Id, revision: nat, name: string, wellFormed: bool) returns (outcome: T.Outcome)
      modifies this`datasets
      ensures (Snapshot(), outcome) == T.UpdateMetadata(old(Snapshot()), d, revision, name, wellFormed)
    {
      if !wellFormed { return T.Invalid; }
      if d !in datasets || datasets[d].revision != revision || datasets[d].status == T.Archived { return T.Conflict; }
      datasets := datasets[d := datasets[d].(name := name, revision := datasets[d].revision + 1)];
      return T.Done;
    }

    method Archive(d: T.Id, revision: nat) returns (outcome: T.Outcome)
      modifies this`datasets
      ensures (Snapshot(), outcome) == T.Archive(old(Snapshot()), d, revision)
    {
      if d !in datasets || datasets[d].revision != revision || datasets[d].status == T.Archived
         || T.HasActive(Snapshot(), d)
      {
        return T.Conflict;
      }
      datasets := datasets[d := datasets[d].(status := T.Archived)];
      datasets := datasets[d := datasets[d].(revision := datasets[d].revision + 1)];
      assert datasets == old(datasets)[d := datasets[d]];
      return T.Done;
    }

    method CleanupRows(item: T.CleanupItem, doomed: set<nat>)
      modifies this`tables
      ensures Snapshot() == T.CleanupRows(old(Snapshot()), item, doomed)
    {
      if item.dataset !in tables { return; }
      var table := tables[item.dataset];
      tables := tables[item.dataset := table.(rows := T.Without(table.rows, item, doomed))];
    }

    /** Creates or, while nothing was ever published, replaces the physical table of a dataset. */
    method Ensure(d: T.Id, i: T.Id, seen: T.DatasetStatus, columns: T.Columns, crash: bool) returns (ensured: bool)
      modifies this`tables
      ensures (Snapshot(), ensured) == T.Ensure(old(Snapshot()), d, i, seen, columns, crash)
    {
      if d in tables && tables[d].columns != columns {
        if seen != T.Provisioning || !T.ResetAllowed(Snapshot(), d, i) { return false; }
        tables := tables - {d};
        if crash { return false; }
        tables := tables[d := T.Table(columns, [], 0)];
        assert tables == old(tables)[d := T.Table(columns, [], 0)];
        return true;
      }
      if d !in tables {
        tables := tables[d := T.Table(columns, [], 0)];
      }
      return seen != T.Provisioning || T.ResetAllowed(Snapshot(), d, i);
    }

    method Insert(d: T.Id, key: T.Key, batch: seq<(nat, T.Values)>)
      modifies this`tables
      ensures Snapshot() == T.Insert(old(Snapshot()), d, key, batch)
    {
      if d !in tables { return; }
      var table := tables[d];
      var rows := table.rows + T.NewRows(key, table.nextRow, batch);
      tables := tables[d := table.(rows := rows, nextRow := table.nextRow + |batch|)];
    }
  }
}
