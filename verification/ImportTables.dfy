/**
 The rows of the custom dataset import protocol (internal/customdataset): datasets, imports and the physical
 tables, with every transaction of the repository as one atomic function on them. A transaction that fails
 returns the database it was given, which is the rollback.
*/
module ImportTables {
  import opened Options

  const MAX_DATA_ROWS: nat := 1_000_000
  const TWO_64: nat := 0x1_0000_0000_0000_0000

  /** Subtraction of 64-bit unsigned integers, which wraps around. */
  function Minus(a: nat, b: nat): nat {
    (a - b) % TWO_64
  }

  type Id = nat
  type Owner = string
  type Time = int
  type Values = seq<string>

  datatype Column = Column(displayName: string, queryName: string, logicalType: string, dateFormat: Option<string>)
  type Columns = seq<Column>

  datatype DatasetStatus = Provisioning | Active | Archived
  datatype ImportStatus = Queued | Running | Succeeded | Failed
  datatype Mode = Replace | Append

  datatype Dataset = Dataset(
    name: string,
    status: DatasetStatus,
    revision: nat,
    schemaRevision: nat,
    columns: Columns,
    current: Option<Id>,
    rowCount: nat)

  datatype Import = Import(
    dataset: Id,
    mode: Mode,
    schemaRevision: nat,
    generation: Id,
    status: ImportStatus,
    attempt: nat,
    published: Option<nat>,
    owner: Option<Owner>,
    heartbeat: Option<Time>,
    finished: Option<Time>)

  /** The provenance columns of a physical row: the import and the attempt that staged it. */
  datatype Key = Key(importId: Id, attempt: nat)
  datatype Row = Row(rowId: nat, key: Key, source: nat, values: Values)
  datatype Table = Table(columns: Columns, rows: seq<Row>, nextRow: nat)

  datatype Db = Db(
    datasets: map<Id, Dataset>,
    imports: map<Id, Import>,
    tables: map<Id, Table>,
    nextDataset: Id,
    nextImport: Id)

  const EmptyDb := Db(map[], map[], map[], 0, 0)

  datatype Outcome = Done | NotFound | Inactive | Conflict | Invalid | ClaimLost

  /** The claimed import as its worker keeps it. */
  datatype Job = Job(importId: Id, dataset: Id, mode: Mode, attempt: nat, schemaRevision: nat, owner: Owner)

  datatype Submission = Submission(
    dataset: Option<Id>,
    revision: nat,
    name: string,
    mode: Mode,
    columns: Columns,
    wellFormed: bool,
    uploadUsable: bool)

  datatype CleanupItem = CleanupItem(importId: Id, dataset: Id, published: Option<nat>, retired: bool)

  predicate IsActive(m: Import) {
    m.status == Queued || m.status == Running
  }

  predicate HasActive(db: Db, d: Id) {
    exists i | i in db.imports :: db.imports[i].dataset == d && IsActive(db.imports[i])
  }

  predicate HasSucceeded(db: Db, d: Id) {
    exists i | i in db.imports :: db.imports[i].dataset == d && db.imports[i].status == Succeeded
  }

  // ---------------------------------------------------------------------------------------------------------
  // What a reader sees
  // ---------------------------------------------------------------------------------------------------------

  /** The view's condition on an import. */
  predicate Shown(db: Db, d: Id, i: Id) {
    && i in db.imports
    && d in db.datasets
    && db.imports[i].dataset == d
    && db.imports[i].status == Succeeded
    && db.imports[i].published.Some?
    && db.datasets[d].current == Some(db.imports[i].generation)
  }

  function VisibleKeys(db: Db, d: Id): set<Key> {
    set i | i in db.imports && Shown(db, d, i) :: Key(i, db.imports[i].published.value)
  }

  /** The values of the rows staged under one of `keys`, in row order. */
  function Select(rows: seq<Row>, keys: set<Key>): seq<Values> {
    if rows == [] then []
    else
      var last := rows[|rows| - 1];
      Select(rows[..|rows| - 1], keys) + (if last.key in keys then [last.values] else [])
  }

  function RowsOf(db: Db, d: Id): seq<Row> {
    if d in db.tables then db.tables[d].rows else []
  }

  /** The list a reader of the dataset's SQL view sees, in row order. */
  function View(db: Db, d: Id): seq<Values> {
    Select(RowsOf(db, d), VisibleKeys(db, d))
  }

  // ---------------------------------------------------------------------------------------------------------
  // Transactions
  // ---------------------------------------------------------------------------------------------------------

  function Enqueue(before: Db, db: Db, d: Id, input: Submission): (Db, Outcome)
    requires d in db.datasets
  {
    var dataset := db.datasets[d];
    if !input.uploadUsable then (before, NotFound)
    else if HasActive(db, d) then (before, Conflict)
    else if input.mode == Append && (dataset.status != Active || dataset.current.None?) then (before, Inactive)
    else
      var i := db.nextImport;
      var generation := if input.mode == Append then dataset.current.value else i;
      var m := Import(d, input.mode, dataset.schemaRevision, generation, Queued, 0, None, None, None, None);
      (db.(imports := db.imports[i := m], nextImport := i + 1), Done)
  }

  function Submit(db: Db, input: Submission): (Db, Outcome) {
    if !input.wellFormed then (db, Invalid)
    else match input.dataset
      case None =>
        var d := db.nextDataset;
        var dataset := Dataset(input.name, Provisioning, 1, 1, input.columns, None, 0);
        Enqueue(db, db.(datasets := db.datasets[d := dataset], nextDataset := d + 1), d, input)
      case Some(d) =>
        if d !in db.datasets then (db, NotFound)
        else
          var dataset := db.datasets[d];
          if dataset.status == Archived then (db, Inactive)
          else if input.revision != dataset.revision then (db, Conflict)
          else if dataset.status == Provisioning then
            if HasSucceeded(db, d) || dataset.current.Some? || HasActive(db, d) then (db, Conflict)
            else
              var revised := dataset.(
                schemaRevision := dataset.schemaRevision + 1, revision := dataset.revision + 1,
                name := if input.name == "" then dataset.name else input.name, columns := input.columns);
              Enqueue(db, db.(datasets := db.datasets[d := revised]), d, input)
          else if input.name != "" && input.name != dataset.name then (db, Invalid)
          else if input.columns != dataset.columns then (db, Invalid)
          else Enqueue(db, db, d, input)
  }

  function Claim(db: Db, i: Id, owner: Owner, now: Time): (Db, Option<Job>) {
    if i !in db.imports || db.imports[i].status != Queued then (db, None)
    else
      var m := db.imports[i].(
        status := Running, attempt := db.imports[i].attempt + 1, owner := Some(owner), heartbeat := Some(now));
      (db.(imports := db.imports[i := m]), Some(Job(i, m.dataset, m.mode, m.attempt, m.schemaRevision, owner)))
  }

  /** The fence of every worker update: the import still runs this attempt for this owner. */
  predicate Owned(db: Db, job: Job) {
    && job.importId in db.imports
    && db.imports[job.importId].status == Running
    && db.imports[job.importId].owner == Some(job.owner)
    && db.imports[job.importId].attempt == job.attempt
  }

  function Heartbeat(db: Db, job: Job, now: Time): (Db, bool) {
    if !Owned(db, job) then (db, false)
    else (db.(imports := db.imports[job.importId := db.imports[job.importId].(heartbeat := Some(now))]), true)
  }

  predicate IsStale(m: Import, staleAfter: nat, now: Time) {
    m.status == Running && m.heartbeat.Some? && m.heartbeat.value < now - staleAfter
  }

  function Requeued(m: Import): Import {
    m.(status := Queued, owner := None, heartbeat := None)
  }

  function RequeueStale(db: Db, staleAfter: nat, now: Time): Db {
    db.(imports := map i | i in db.imports ::
          if IsStale(db.imports[i], staleAfter, now) then Requeued(db.imports[i]) else db.imports[i])
  }

  function Fail(db: Db, job: Job, now: Time): (Db, bool) {
    if !Owned(db, job) then (db, false)
    else
      var m := db.imports[job.importId].(status := Failed, finished := Some(now), heartbeat := Some(now));
      (db.(imports := db.imports[job.importId := m]), true)
  }

  function Publish(db: Db, job: Job, rows: nat, now: Time): (Db, Outcome) {
    if job.importId !in db.imports || job.dataset !in db.datasets then (db, NotFound)
    else
      var m := db.imports[job.importId];
      var dataset := db.datasets[job.dataset];
      if !Owned(db, job) || m.schemaRevision != dataset.schemaRevision || dataset.status == Archived then
        (db, ClaimLost)
      else if m.mode == Append && (dataset.current != Some(m.generation) || dataset.status != Active) then
        (db, Conflict)
      else if m.mode == Append && dataset.rowCount > Minus(MAX_DATA_ROWS, rows) then
        (db, Invalid)
      else
        var m' := m.(status := Succeeded, published := Some(m.attempt), finished := Some(now), heartbeat := Some(now));
        var dataset' :=
          if m.mode == Replace then
            dataset.(status := Active, current := Some(m.generation), rowCount := rows, revision := dataset.revision + 1)
          else
            dataset.(rowCount := dataset.rowCount + rows, revision := dataset.revision + 1);
        (db.(imports := db.imports[job.importId := m'], datasets := db.datasets[job.dataset := dataset']), Done)
  }

  function UpdateMetadata(db: Db, d: Id, revision: nat, name: string, wellFormed: bool): (Db, Outcome) {
    if !wellFormed then (db, Invalid)
    else if d !in db.datasets || db.datasets[d].revision != revision || db.datasets[d].status == Archived then (db, Conflict)
    else (db.(datasets := db.datasets[d := db.datasets[d].(name := name, revision := revision + 1)]), Done)
  }

  function Archive(db: Db, d: Id, revision: nat): (Db, Outcome) {
    if d !in db.datasets || db.datasets[d].revision != revision || db.datasets[d].status == Archived || HasActive(db, d)
    then (db, Conflict)
    else
      var dataset := db.datasets[d].(status := Archived, revision := revision + 1);
      (db.(datasets := db.datasets[d := dataset]), Done)
  }

  predicate IsRetired(db: Db, i: Id)
    requires i in db.imports
  {
    var m := db.imports[i];
    && m.status == Succeeded
    && m.dataset in db.datasets
    && db.datasets[m.dataset].current != Some(m.generation)
  }

  predicate IsCandidate(m: Import, grace: nat, now: Time) {
    (m.status == Failed || m.status == Succeeded) && m.finished.Some? && m.finished.value < now - grace
  }

  function CleanupCandidates(db: Db, grace: nat, now: Time): set<CleanupItem> {
    set i | i in db.imports && IsCandidate(db.imports[i], grace, now) ::
      CleanupItem(i, db.imports[i].dataset, db.imports[i].published, IsRetired(db, i))
  }

  /** The rows the DELETE of one candidate matches. */
  predicate Matches(item: CleanupItem, key: Key) {
    && key.importId == item.importId
    && (!item.retired && item.published.Some? ==> key.attempt != item.published.value)
  }

  function Without(rows: seq<Row>, item: CleanupItem, doomed: set<nat>): seq<Row> {
    if rows == [] then []
    else
      var last := rows[|rows| - 1];
      Without(rows[..|rows| - 1], item, doomed)
      + (if Matches(item, last.key) && last.rowId in doomed then [] else [last])
  }

  /** One bounded DELETE: whichever matching rows the LIMIT let it take are those whose ids are in `doomed`. */
  function CleanupRows(db: Db, item: CleanupItem, doomed: set<nat>): Db {
    if item.dataset !in db.tables then db
    else
      var table := db.tables[item.dataset];
      db.(tables := db.tables[item.dataset := table.(rows := Without(table.rows, item, doomed))])
  }

  function ResetAllowed(db: Db, d: Id, i: Id): bool {
    && d in db.datasets
    && db.datasets[d].status == Provisioning
    && db.datasets[d].current.None?
    && !HasSucceeded(db, d)
    && (forall j | j in db.imports && db.imports[j].dataset == d && IsActive(db.imports[j]) :: j == i)
  }

  /**
   The DDL step, under the dataset's named lock. `seen` is the status the worker read earlier and `columns` the
   columns it read, which both may be out of date. `crash` stops it between DROP TABLE and CREATE TABLE.
  */
  function Ensure(db: Db, d: Id, i: Id, seen: DatasetStatus, columns: Columns, crash: bool): (Db, bool) {
    var exists_ := d in db.tables;
    var exact := exists_ && db.tables[d].columns == columns;
    var fresh_ := Table(columns, [], 0);
    if exists_ && !exact then
      if seen != Provisioning || !ResetAllowed(db, d, i) then (db, false)
      else if crash then (db.(tables := db.tables - {d}), false)
      else (db.(tables := db.tables[d := fresh_]), true)
    else
      var db' := if exists_ then db else db.(tables := db.tables[d := fresh_]);
      (db', seen == Provisioning ==> ResetAllowed(db', d, i))
  }

  function NewRows(key: Key, first: nat, batch: seq<(nat, Values)>): (rows: seq<Row>)
    ensures |rows| == |batch|
  {
    seq(|batch|, n requires 0 <= n < |batch| => Row(first + n, key, batch[n].0, batch[n].1))
  }

  function Insert(db: Db, d: Id, key: Key, batch: seq<(nat, Values)>): Db {
    if d !in db.tables then db
    else
      var table := db.tables[d];
      db.(tables := db.tables[d := table.(
            rows := table.rows + NewRows(key, table.nextRow, batch), nextRow := table.nextRow + |batch|)])
  }
}
