/** What requests on imports write, and that what is published is what was submitted. */
module ImportSubmissions {
  import opened Options
  import opened ImportTables
  import opened ImportProtocol
  import opened ImportInvariants
  import opened ImportRuns

  /** The dataset has no unfinished import. */
  ghost predicate Idle(db: Db, d: Id) {
    forall i <- db.imports :: db.imports[i].dataset == d ==> db.imports[i].status in {Succeeded, Failed}
  }

  /**
   A usable upload may be queued for a new dataset to fill, for one that was never filled to fill, and for a filled one,
   under its name and columns, to replace or extend; always with the revision the dataset has and nothing unfinished.
  */
  ghost predicate MayQueue(db: Db, input: Submission) {
    && input.wellFormed && input.uploadUsable
    && match input.dataset
       case None => input.mode == Replace
       case Some(d) =>
         && d in db.datasets && db.datasets[d].revision == input.revision && Idle(db, d)
         && match db.datasets[d].status
            case Provisioning => input.mode == Replace
            case Active => (input.name == "" || input.name == db.datasets[d].name) && input.columns == db.datasets[d].columns
            case Archived => false
  }

  /** The row of the dataset after its submission was queued. */
  function SubmittedDataset(db: Db, input: Submission): Dataset
    requires input.dataset.Some? ==> input.dataset.value in db.datasets
  {
    if input.dataset.None? then Dataset(input.name, Provisioning, 1, 1, input.columns, None, 0)
    else
      var was := db.datasets[input.dataset.value];
      if was.status != Provisioning then was
      else Dataset(if input.name == "" then was.name else input.name, Provisioning, was.revision + 1,
                   was.schemaRevision + 1, input.columns, was.current, was.rowCount)
  }

  /**
   A submission is queued exactly if it may be, and then adds one import: waiting, with the submitted mode, under the
   dataset's schema revision, and in the generation readers see now if it extends, in its own if it replaces. Nothing
   else changes but the dataset's own row, and if it is not queued nothing at all.
  */
  lemma SubmitExactly(events: seq<Event>, db: Db, input: Submission)
    requires db == Run(events).db
    ensures var (db', outcome) := Submit(db, input);
            && (outcome == Done <==> MayQueue(db, input))
            && (outcome != Done ==> db' == db)
            && (outcome == Done ==>
                  var d := if input.dataset.None? then db.nextDataset else input.dataset.value;
                  var i, dataset := db.nextImport, SubmittedDataset(db, input);
                  && i !in db.imports && (input.dataset.None? ==> d !in db.datasets)
                  && (input.mode == Append ==> dataset.current.Some?)
                  && db'.datasets == db.datasets[d := dataset]
                  && db'.imports == db.imports[i := Import(d, input.mode, dataset.schemaRevision,
                       if input.mode == Append then dataset.current.value else i, Queued, 0, None, None, None, None)]
                  && db'.tables == db.tables)
  {
    hide Run;
    RunRefines(events, 0);
    var d := if input.dataset.None? then db.nextDataset else input.dataset.value;
    IdleIsInactive(db, d);
    if d in db.datasets { assert DatasetOk(db, d); }
    assert forall other: Db | other.imports == db.imports :: HasActive(other, d) == HasActive(db, d);
  }

  lemma IdleIsInactive(db: Db, d: Id)
    ensures Idle(db, d) <==> !HasActive(db, d)
  {
    forall i <- db.imports ensures IsActive(db.imports[i]) <==> db.imports[i].status !in {Succeeded, Failed} {}
  }

  // ---------------------------------------------------------------------------------------------------------
  // From the submission to the publication
  // ---------------------------------------------------------------------------------------------------------

  /** The accepted submission each import was queued for. */
  function Submitted(events: seq<Event>): map<Id, Submission> {
    if events == [] then map[]
    else
      var before, e := events[..|events| - 1], events[|events| - 1];
      var s := Run(before);
      if e.ESubmit? && Submit(s.db, e.input).1 == Done then Submitted(before)[s.db.nextImport := e.input]
      else Submitted(before)
  }

  ghost predicate IsOf(m: Import, input: Submission) {
    m.mode == input.mode && (input.dataset.Some? ==> m.dataset == input.dataset.value)
  }

  /** Every import is for an accepted submission, with its mode and into its dataset. */
  lemma {:induction false} ImportsAreSubmitted(events: seq<Event>)
    ensures Run(events).db.imports.Keys == Submitted(events).Keys
    ensures forall i <- Run(events).db.imports :: IsOf(Run(events).db.imports[i], Submitted(events)[i])
  {
    if events != [] {
      var before, e := events[..|events| - 1], events[|events| - 1];
      ImportsAreSubmitted(before);
      hide Run, Step, IsOf;
      LastStep(events);
      StepImports(before, e);
    }
  }

  lemma LastStep(events: seq<Event>)
    requires events != []
    ensures Run(events) == Step(Run(events[..|events| - 1]), events[|events| - 1])
  {
  }

  /** An event queues the import of an accepted submission, or keeps what each import is for. */
  lemma StepImports(before: seq<Event>, e: Event)
    ensures var s := Run(before); var s' := Step(s, e);
            && (forall i <- s.db.imports ::
                  && i in s'.db.imports
                  && s'.db.imports[i].mode == s.db.imports[i].mode && s'.db.imports[i].dataset == s.db.imports[i].dataset)
            && (if e.ESubmit? && Submit(s.db, e.input).1 == Done then
                  && s'.db.imports.Keys == s.db.imports.Keys + {s.db.nextImport} && s.db.nextImport !in s.db.imports
                  && IsOf(s'.db.imports[s.db.nextImport], e.input)
                else s'.db.imports.Keys == s.db.imports.Keys)
  {
    hide Run;
    var s := Run(before);
    if e.ESubmit? {
      hide Submit;
      SubmitExactly(before, s.db, e.input);
    } else {
      OtherImports(s, e);
    }
  }

  ghost predicate SameImports(db: Db, db': Db) {
    && db'.imports.Keys == db.imports.Keys
    && (forall i <- db.imports ::
          db'.imports[i].mode == db.imports[i].mode && db'.imports[i].dataset == db.imports[i].dataset)
  }

  lemma OtherImports(s: System, e: Event)
    requires !e.ESubmit?
    ensures SameImports(s.db, Step(s, e).db)
  {
    hide HasActive, CleanupCandidates, WorkerStep;
    match e
    case ESubmit(_) =>
    case EClaim(_, _, _) =>
    case ERequeueStale(_, _) =>
    case EUpdate(_, _, _, _) =>
    case EArchive(_, _) =>
    case EListCleanup(_, _) =>
    case ECleanup(_, _) =>
    case _ => if e.worker in s.workers { WorkerImports(s, e.worker, e); }
  }

  lemma WorkerImports(s: System, k: Key, e: Event)
    requires k in s.workers
    ensures SameImports(s.db, WorkerStep(s, k, e).db)
  {
    hide ResetAllowed, NewRows, ValuesOf;
  }

  /** The list that the submissions of the published imports make: replaced or extended as was submitted. */
  function AsSubmitted(events: seq<Event>, d: Id): seq<Values> {
    if events == [] then []
    else
      var before, e := events[..|events| - 1], events[|events| - 1];
      var s, list := Run(before), AsSubmitted(before, d);
      if !e.EPublish? || !Publishes(s, e.worker, e.now) || e.worker.importId !in Submitted(before)
         || s.workers[e.worker].job.dataset != d then list
      else match Submitted(before)[e.worker.importId].mode
        case Replace => s.workers[e.worker].sent
        case Append => list + s.workers[e.worker].sent
  }

  /** In every reachable state readers see what was submitted: each publication replaces or extends as was asked. */
  lemma {:induction false} ReadersSeeSubmissions(events: seq<Event>, d: Id)
    ensures View(Run(events).db, d) == AsSubmitted(events, d)
  {
    RunRefines(events, d);
    if events != [] {
      var before, e := events[..|events| - 1], events[|events| - 1];
      ReadersSeeSubmissions(before, d);
      RunRefines(before, d);
      ImportsAreSubmitted(before);
      hide View, Inv, Step, Publish;
      if e.EPublish? { PublishersAreSubmitted(before, e); }
    }
  }

  /** The import of a publication belongs to the dataset and has the mode of its submission. */
  lemma PublishersAreSubmitted(before: seq<Event>, e: Event)
    requires e.EPublish?
    ensures var s, k := Run(before), e.worker;
            Publishes(s, k, e.now) ==>
              && k.importId in Submitted(before)
              && s.workers[k].job.mode == Submitted(before)[k.importId].mode
              && (Submitted(before)[k.importId].dataset.Some? ==>
                    s.workers[k].job.dataset == Submitted(before)[k.importId].dataset.value)
  {
    hide Run, Publish;
    RunRefines(before, 0);
    ImportsAreSubmitted(before);
    var s, k := Run(before), e.worker;
    if k in s.workers { assert WorkerOk(s.db, k, s.workers[k]); }
  }

  // ---------------------------------------------------------------------------------------------------------
  // The other requests
  // ---------------------------------------------------------------------------------------------------------

  /** Waiting imports are claimed, by a new attempt; the worker is told what was submitted. */
  lemma ClaimExactly(events: seq<Event>, db: Db, i: Id, owner: Owner, now: Time)
    requires db == Run(events).db && i in db.imports
    ensures var (db', job) := Claim(db, i, owner, now);
            var m := db.imports[i];
            && (job.Some? <==> m.status == Queued)
            && (job.None? ==> db' == db)
            && (job.Some? ==>
                  && i in Submitted(events) && job.value.mode == Submitted(events)[i].mode
                  && job.value == Job(i, m.dataset, m.mode, m.attempt + 1, m.schemaRevision, owner)
                  && db' == db.(imports := db.imports[i := m.(status := Running, attempt := m.attempt + 1,
                                                              owner := Some(owner), heartbeat := Some(now))]))
  {
    hide Run;
    ImportsAreSubmitted(events);
  }

  /** The owner's failure ends the import, whose rows are then nobody's; anyone else's changes nothing. */
  lemma FailExactly(db: Db, job: Job, now: Time)
    requires job.importId in db.imports
    ensures var (db', ok) := Fail(db, job, now);
            var m := db.imports[job.importId];
            && (ok <==> m.status == Running && m.owner == Some(job.owner) && m.attempt == job.attempt)
            && (!ok ==> db' == db)
            && (ok ==> Gone(db', job.importId)
                       && db' == db.(imports := db.imports[job.importId :=
                            m.(status := Failed, finished := Some(now), heartbeat := Some(now))]))
  {
  }

  /** Archiving needs the current revision and nothing unfinished; renaming needs the revision alone. */
  lemma AmendExactly(db: Db, d: Id, revision: nat, name: string, wellFormed: bool)
    requires d in db.datasets
    ensures var (db', outcome) := Archive(db, d, revision);
            && (outcome == Done <==>
                  db.datasets[d].revision == revision && db.datasets[d].status != Archived && Idle(db, d))
            && db' == if outcome == Done then
                        db.(datasets := db.datasets[d := db.datasets[d].(status := Archived, revision := revision + 1)])
                      else db
    ensures var (db', outcome) := UpdateMetadata(db, d, revision, name, wellFormed);
            && (outcome == Done <==>
                  wellFormed && db.datasets[d].revision == revision && db.datasets[d].status != Archived)
            && db' == if outcome == Done then
                        db.(datasets := db.datasets[d := db.datasets[d].(name := name, revision := revision + 1)])
                      else db
  {
    IdleIsInactive(db, d);
  }

  /** Every import that ended longer ago than the grace period is listed, and no other. */
  lemma ListedExactly(db: Db, grace: nat, now: Time, i: Id)
    requires i in db.imports
    ensures (exists item <- CleanupCandidates(db, grace, now) :: item.importId == i) <==>
            && db.imports[i].status in {Succeeded, Failed} && db.imports[i].finished.Some?
            && db.imports[i].finished.value + grace < now
  {
    var item := CleanupItem(i, db.imports[i].dataset, db.imports[i].published, IsRetired(db, i));
    if IsCandidate(db.imports[i], grace, now) { assert item in CleanupCandidates(db, grace, now); }
  }

  /**
   Cleaning a listed import takes away all its rows that nobody can see: every row of one that failed or was retired, and
   those of the attempts that did not publish.
  */
  lemma CleanupReclaims(events: seq<Event>, db: Db, grace: nat, now: Time, item: CleanupItem, doomed: set<nat>, row: Row)
    requires db == Run(events).db && item in CleanupCandidates(db, grace, now)
    requires forall r <- RowsOf(db, item.dataset) :: r.rowId in doomed
    ensures row in RowsOf(CleanupRows(db, item, doomed), item.dataset) <==>
              && row in RowsOf(db, item.dataset)
              && (row.key.importId == item.importId ==> row.key in VisibleKeys(db, item.dataset))
  {
    hide Run, Inv;
    RunRefines(events, item.dataset);
    InvImports(Run(events));
    var i := item.importId;
    var rows := RowsOf(db, item.dataset);
    if item.dataset in db.tables { WithoutExactly(rows, item, doomed, row); }
    if row in rows && row.key.importId == i {
      assert row.key in VisibleKeys(db, item.dataset) <==>
        Shown(db, item.dataset, i) && db.imports[i].published == Some(row.key.attempt);
    }
  }

  lemma InvImports(s: System)
    requires Inv(s)
    ensures ImportsOk(s.db) && GenerationsOk(s.db) && DatasetsOk(s.db)
  {
  }

  lemma {:induction false} WithoutExactly(rows: seq<Row>, item: CleanupItem, doomed: set<nat>, row: Row)
    requires forall r <- rows :: r.rowId in doomed
    ensures row in Without(rows, item, doomed) <==> row in rows && !Matches(item, row.key)
  {
    if rows != [] { WithoutExactly(rows[..|rows| - 1], item, doomed, row); }
  }

  /** An INSERT appends one row for each record, in order, with its source number and values and an id nobody had. */
  lemma InsertWrites(db: Db, d: Id, key: Key, batch: seq<(nat, Values)>, n: nat)
    requires d in db.tables && n < |batch|
    ensures var table, table' := db.tables[d], Insert(db, d, key, batch).tables[d];
            && |table'.rows| == |table.rows| + |batch| && table.rows <= table'.rows
            && table'.rows[|table.rows| + n] == Row(table.nextRow + n, key, batch[n].0, batch[n].1)
            && table'.nextRow == table.nextRow + |batch| && table'.columns == table.columns
            && Insert(db, d, key, batch) == db.(tables := db.tables[d := table'])
  {
  }
}
