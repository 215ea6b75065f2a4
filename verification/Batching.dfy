/** Cutting rows into INSERT statements that fit the server's packet (worker.go) or fixed bounds (sql.go). */
module Batching {
  import opened Options

  const BATCH_ROWS: nat := 500
  const BATCH_PARAMETERS: nat := 60_000
  const BATCH_SOFT_BYTES: nat := 4_194_304
  const PACKET_RESERVE: nat := 65_536

  function Concat<T>(batches: seq<seq<T>>): seq<T> {
    if batches == [] then [] else Concat(batches[..|batches| - 1]) + batches[|batches| - 1]
  }

  lemma {:induction false} ConcatPlus<T>(a: seq<seq<T>>, b: seq<seq<T>>)
    ensures Concat(a + b) == Concat(a) + Concat(b)
  {
    if b == [] {
      assert a + b == a;
    } else {
      var n := |b| - 1;
      assert (a + b)[..|a + b| - 1] == a + b[..n] && (a + b)[|a + b| - 1] == b[n];
      ConcatPlus(a, b[..n]);
      Associate(Concat(a), Concat(b[..n]), b[n]);
    }
  }

  lemma Associate<T>(a: seq<T>, b: seq<T>, c: seq<T>)
    ensures (a + b) + c == a + (b + c)
  {
  }

  lemma ConcatOne<T>(a: seq<T>)
    ensures Concat([a]) == a
  {
    assert Concat([a]) == Concat([a][..0]) + a;
  }

  // ---------------------------------------------------------------------------------------------------------
  // The size of a statement
  // ---------------------------------------------------------------------------------------------------------

  datatype Record = Record(source: nat, bytes: nat)

  /** `prefix` is the length of the statement up to its first row. */
  datatype Shape = Shape(prefix: nat, columns: nat, packet: nat)

  function Bytes(records: seq<Record>): nat {
    if records == [] then 0 else Bytes(records[..|records| - 1]) + records[|records| - 1].bytes
  }

  lemma NoBytesOf()
    ensures Bytes([]) == 0
  {
  }

  function Width(shape: Shape): nat { shape.columns + 3 }

  /** The text, the values, ten bytes for each value, and the reserve. */
  function Estimate(shape: Shape, count: nat, bytes: nat): nat
    requires count >= 1
  {
    shape.prefix + count * (2 * Width(shape) + 1) + (count - 1) + bytes + count * Width(shape) * 10 + PACKET_RESERVE
  }

  predicate Fits(shape: Shape, records: seq<Record>)
    requires records != []
  {
    && shape.packet > PACKET_RESERVE
    && Estimate(shape, |records|, Bytes(records)) <= shape.packet - PACKET_RESERVE
  }

  // ---------------------------------------------------------------------------------------------------------
  // Halving
  // ---------------------------------------------------------------------------------------------------------

  /** The statements a flush makes of the records, or none if one record alone is too large. */
  function Halve(shape: Shape, records: seq<Record>): Option<seq<seq<Record>>>
    decreases |records|
  {
    if records == [] then Some([])
    else if Fits(shape, records) then Some([records])
    else if |records| == 1 then None
    else
      var mid := |records| / 2;
      var left, right := Halve(shape, records[..mid]), Halve(shape, records[mid..]);
      if left.None? || right.None? then None else Some(left.value + right.value)
  }

  lemma HalveAgain(shape: Shape, records: seq<Record>)
    requires |records| > 1 && !Fits(shape, records)
    ensures var left, right := Halve(shape, records[..|records| / 2]), Halve(shape, records[|records| / 2..]);
            && (Halve(shape, records).Some? <==> left.Some? && right.Some?)
            && (Halve(shape, records).Some? ==>
                  forall sent :: sent + Halve(shape, records).value == (sent + left.value) + right.value)
  {
    hide Fits;
    if Halve(shape, records).Some? {
      var left, right := Halve(shape, records[..|records| / 2]).value, Halve(shape, records[|records| / 2..]).value;
      forall sent: seq<seq<Record>> ensures sent + (left + right) == (sent + left) + right {}
    }
  }

  ghost predicate AllFit(shape: Shape, batches: seq<seq<Record>>) {
    forall b <- batches :: b != [] && Fits(shape, b)
  }

  /** Nothing is lost, doubled or moved, and each statement is within the packet less the reserve. */
  lemma {:induction false} HalveKeepsRecords(shape: Shape, records: seq<Record>)
    requires Halve(shape, records).Some?
    ensures Concat(Halve(shape, records).value) == records
    ensures AllFit(shape, Halve(shape, records).value)
    decreases |records|
  {
    if records != [] {
      if Fits(shape, records) {
        ConcatOne(records);
      } else {
        var mid := |records| / 2;
        HalveKeepsRecords(shape, records[..mid]);
        HalveKeepsRecords(shape, records[mid..]);
        ConcatPlus(Halve(shape, records[..mid]).value, Halve(shape, records[mid..]).value);
        assert records == records[..mid] + records[mid..];
      }
    }
  }

  lemma {:induction false} BytesOf(records: seq<Record>, k: nat)
    requires k < |records|
    ensures Bytes(records) >= records[k].bytes
  {
    if k < |records| - 1 { BytesOf(records[..|records| - 1], k); }
  }

  lemma Grows(shape: Shape, count: nat, small: nat, large: nat)
    requires count >= 1 && small <= large
    ensures Estimate(shape, 1, small) <= Estimate(shape, count, large)
  {
    var w := Width(shape);
    assert count * (2 * w + 1) >= 1 * (2 * w + 1);
    assert count * w * 10 >= 1 * w * 10 by { assert count * w >= 1 * w; }
  }

  lemma FitsAlone(shape: Shape, records: seq<Record>, k: nat)
    requires records != [] && Fits(shape, records) && k < |records|
    ensures Fits(shape, [records[k]])
  {
    hide Estimate;
    BytesOf(records, k);
    assert [records[k]][..0] == [];
    assert Bytes([records[k]]) == records[k].bytes;
    Grows(shape, |records|, records[k].bytes, Bytes(records));
  }

  /** A flush finds statements for its records exactly if each record alone can be sent. */
  lemma {:induction false} HalveSucceeds(shape: Shape, records: seq<Record>)
    ensures Halve(shape, records).Some? <==> forall k | 0 <= k < |records| :: Fits(shape, [records[k]])
    decreases |records|
  {
    hide Fits;
    if records != [] {
      if Fits(shape, records) {
        forall k | 0 <= k < |records| ensures Fits(shape, [records[k]]) { FitsAlone(shape, records, k); }
      } else if |records| == 1 {
        assert records == [records[0]];
      } else {
        var mid := |records| / 2;
        HalveSucceeds(shape, records[..mid]);
        HalveSucceeds(shape, records[mid..]);
        assert forall k | 0 <= k < mid :: records[..mid][k] == records[k];
        assert forall k | mid <= k < |records| :: records[mid..][k - mid] == records[k];
      }
    }
  }

  lemma AloneTooLarge(shape: Shape, record: Record)
    requires Estimate(shape, 1, record.bytes) >= shape.packet
    ensures !Fits(shape, [record])
  {
    assert [record][..0] == [];
  }

  // ---------------------------------------------------------------------------------------------------------
  // The inserter
  // ---------------------------------------------------------------------------------------------------------

  /** What the database answers to a statement, and to the count of its rows that is asked for after an error. */
  datatype Answer = Executed | Refused(present: Option<nat>)

  /** The answers to the statements of a run, in order, and whether each progress update found the claim owned. */
  datatype Database = Database(answer: nat -> Answer, owned: nat -> bool)

  datatype Flushed = Sent | TooLarge | ExecError | Partial | ClaimLost

  class Inserter {
    const shape: Shape
    const database: Database
    var records: seq<Record>
    var bytes: nat
    var rows: nat
    var lastSource: nat
    var asked: nat
    ghost var sent: seq<seq<Record>>

    constructor (shape: Shape, database: Database)
      ensures Valid() && records == [] && sent == [] && rows == 0
      ensures this.shape == shape && this.database == database
    {
      this.shape, this.database := shape, database;
      records, bytes, rows, lastSource, asked, sent := [], 0, 0, 0, 0, [];
    }

    ghost predicate Valid()
      reads this
    {
      && bytes == Bytes(records)
      && rows == |Concat(sent)|
      && AllFit(shape, sent)
      && |records| <= BATCH_ROWS
      && (|records| > 1 ==> |records| * Width(shape) <= BATCH_PARAMETERS && bytes <= BATCH_SOFT_BYTES)
    }

    /** The records given so far, sent or not. */
    ghost function Given(): seq<Record>
      reads this
    {
      Concat(sent) + records
    }

    method Recalculate()
      modifies this`bytes
      ensures bytes == Bytes(records)
    {
      bytes := 0;
      for k := 0 to |records|
        invariant bytes == Bytes(records[..k])
      {
        assert records[..k + 1][..k] == records[..k];
        bytes := bytes + records[k].bytes;
      }
      assert records[..|records|] == records;
    }

    /** Executes one statement for all the records, and settles an uncertain outcome by counting its rows. */
    method Execute() returns (r: Flushed, ghost n: nat)
      requires records != [] && Fits(shape, records)
      requires bytes == Bytes(records) && rows == |Concat(sent)| && AllFit(shape, sent)
      modifies this
      ensures rows == |Concat(sent)| && AllFit(shape, sent)
      ensures n <= |old(records)| && Concat(sent) == Concat(old(sent)) + old(records)[..n]
      ensures r == Sent ==> sent == old(sent) + [old(records)] && records == [] && bytes == 0
      ensures r == Sent ==> lastSource == old(records)[|old(records)| - 1].source
      ensures r != TooLarge
    {
      hide Fits, Concat, Bytes;
      n := 0;
      assert records[..0] == [] && Concat(sent) + [] == Concat(sent);
      NoBytesOf();
      var answer, owned := database.answer(asked), database.owned(asked);
      asked := asked + 1;
      if answer.Refused? {
        if answer.present.None? || answer.present == Some(0) { return ExecError, 0; }
        if answer.present != Some(|records|) { return Partial, 0; }
      }
      n := |records|;
      assert records[..n] == records;
      sent := sent + [records];
      ConcatPlus(old(sent), [records]);
      ConcatOne(records);
      rows := rows + |records|;
      lastSource := records[|records| - 1].source;
      if !owned { return ClaimLost, n; }
      records, bytes := [], 0;
      return Sent, n;
    }

    /** Sends the first `n` records: all of them unless something fails. */
    method Flush() returns (r: Flushed, ghost n: nat)
      requires bytes == Bytes(records) && rows == |Concat(sent)| && AllFit(shape, sent)
      modifies this
      ensures rows == |Concat(sent)| && AllFit(shape, sent)
      ensures n <= |old(records)| && Concat(sent) == Concat(old(sent)) + old(records)[..n]
      ensures r == Sent ==>
        && Halve(shape, old(records)).Some?
        && sent == old(sent) + Halve(shape, old(records)).value
        && records == [] && bytes == 0
        && (old(records) != [] ==> lastSource == old(records)[|old(records)| - 1].source)
      ensures r == TooLarge ==> Halve(shape, old(records)).None?
      decreases |records|, 1
    {
      hide Estimate, AllFit, Concat;
      if |records| == 0 {
        assert sent == old(sent) + [];
        return Sent, 0;
      }
      if shape.packet <= PACKET_RESERVE || Estimate(shape, |records|, bytes) > shape.packet - PACKET_RESERVE {
        assert !Fits(shape, records);
        if |records| > 1 {
          r, n := FlushHalves();
          return;
        }
        return TooLarge, 0;
      }
      assert Fits(shape, records);
      r, n := Execute();
    }

    method FlushHalves() returns (r: Flushed, ghost n: nat)
      requires |records| > 1 && !Fits(shape, records)
      requires rows == |Concat(sent)| && AllFit(shape, sent)
      modifies this
      ensures rows == |Concat(sent)| && AllFit(shape, sent)
      ensures n <= |old(records)| && Concat(sent) == Concat(old(sent)) + old(records)[..n]
      ensures r == Sent ==>
        && Halve(shape, old(records)).Some?
        && sent == old(sent) + Halve(shape, old(records)).value
        && records == [] && bytes == 0
        && lastSource == old(records)[|old(records)| - 1].source
      ensures r == TooLarge ==> Halve(shape, old(records)).None?
      decreases |records|, 0
    {
      hide Halve, Bytes, AllFit, Concat, Fits;
      ghost var all := records;
      var mid := |records| / 2;
      var left, right := records[..mid], records[mid..];
      HalveAgain(shape, all);
      records := left;
      Recalculate();
      r, n := Flush();
      assert left[..n] == all[..n];
      if r != Sent { return; }
      HalveKeepsRecords(shape, left);
      ConcatPlus(old(sent), Halve(shape, left).value);
      assert Concat(sent) == Concat(old(sent)) + left;
      records := right;
      Recalculate();
      ghost var k;
      r, k := Flush();
      n := mid + k;
      Associate(Concat(old(sent)), left, right[..k]);
      assert left + right[..k] == all[..n];
    }

    method Add(record: Record) returns (r: Flushed)
      requires Valid()
      modifies this
      ensures r == Sent ==> Valid() && Given() == old(Given()) + [record]
      ensures r == TooLarge ==>
        Halve(shape, old(records)).None? || !Fits(shape, [record])
    {
      hide Fits, Halve, Concat, AllFit;
      if |records| != 0 && (|records| == BATCH_ROWS || (|records| + 1) * (shape.columns + 3) > BATCH_PARAMETERS
                            || bytes + record.bytes > BATCH_SOFT_BYTES)
      {
        ghost var n;
        r, n := Flush();
        if r != Sent { return; }
        HalveKeepsRecords(shape, old(records));
        ConcatPlus(old(sent), Halve(shape, old(records)).value);
      }
      ghost var before := records;
      records := records + [record];
      assert records[..|records| - 1] == before;
      bytes := bytes + record.bytes;
      if |records| == 1 && Estimate(shape, 1, bytes) >= shape.packet {
        assert Bytes([record]) == bytes;
        AloneTooLarge(shape, record);
        return TooLarge;
      }
      assert Given() == old(Given()) + [record];
      return Sent;
    }

    /** A whole stream: on success the statements carry exactly its records, in order. */
    method Stage(stream: seq<Record>) returns (r: Flushed)
      requires Valid() && records == [] && sent == []
      modifies this
      ensures r == Sent ==> Concat(sent) == stream && AllFit(shape, sent) && rows == |stream|
    {
      assert stream[..0] == [];
      for k := 0 to |stream|
        invariant Valid() && Given() == stream[..k]
      {
        assert stream[..k + 1] == stream[..k] + [stream[k]];
        r := Add(stream[k]);
        if r != Sent { return; }
      }
      assert stream[..|stream|] == stream;
      ghost var before, left := sent, records;
      ghost var n;
      r, n := Flush();
      if r == Sent {
        HalveKeepsRecords(shape, left);
        ConcatPlus(before, Halve(shape, left).value);
      }
    }
  }

  // ---------------------------------------------------------------------------------------------------------
  // Bounded inserts
  // ---------------------------------------------------------------------------------------------------------

  const MAX_INSERT_PARAMETERS: nat := 60_000
  const MAX_INSERT_BYTES: nat := 4_194_304
  const MAX_INSERT_ROWS: nat := 500

  datatype Value = Text(length: nat) | Other
  type Row = seq<Value>

  function ValueBytes(v: Value): nat { match v case Text(length) => length case Other => 32 }

  function RowBytes(row: Row): nat {
    if row == [] then 0 else RowBytes(row[..|row| - 1]) + 8 + ValueBytes(row[|row| - 1])
  }

  function RowsBytes(rows: seq<Row>): nat {
    if rows == [] then 0 else RowsBytes(rows[..|rows| - 1]) + RowBytes(rows[|rows| - 1])
  }

  function MaxRows(columns: nat): (n: nat)
    requires columns >= 1
    ensures 1 <= n <= MAX_INSERT_ROWS && (n == 1 || n * columns <= MAX_INSERT_PARAMETERS)
  {
    var quotient := MAX_INSERT_PARAMETERS / columns;
    assert quotient * columns <= MAX_INSERT_PARAMETERS;
    if quotient < 1 then 1
    else if quotient > MAX_INSERT_ROWS then
      assert MAX_INSERT_ROWS * columns <= quotient * columns;
      MAX_INSERT_ROWS
    else quotient
  }

  /** Within the bounds, and as long as the row that follows, if any, allows. */
  ghost predicate Greedy(columns: nat, batch: seq<Row>, next: Option<Row>)
    requires columns >= 1
  {
    && batch != []
    && |batch| <= MaxRows(columns)
    && RowsBytes(batch) <= MAX_INSERT_BYTES
    && (forall row <- batch :: |row| == columns)
    && (next.Some? ==> |batch| == MaxRows(columns) || RowsBytes(batch) + RowBytes(next.value) > MAX_INSERT_BYTES)
  }

  predicate Insertable(columns: nat, row: Row) { |row| == columns && RowBytes(row) <= MAX_INSERT_BYTES }

  method EstimateRowBytes(row: Row) returns (bytes: nat)
    ensures bytes == RowBytes(row)
  {
    bytes := |row| * 8;
    ghost var values := 0;
    for k := 0 to |row|
      invariant bytes == |row| * 8 + values && RowBytes(row[..k]) == k * 8 + values
    {
      assert row[..k + 1][..k] == row[..k];
      bytes := bytes + ValueBytes(row[k]);
      values := values + ValueBytes(row[k]);
    }
    assert row[..|row|] == row;
  }

  /** The row that follows batch k; `rest` are the rows after all the batches. */
  function Following(batches: seq<seq<Row>>, rest: seq<Row>, k: nat): Option<Row>
    requires k < |batches|
  {
    if k + 1 < |batches| then (if batches[k + 1] == [] then None else Some(batches[k + 1][0]))
    else if rest == [] then None else Some(rest[0])
  }

  ghost predicate GreedyAt(columns: nat, batches: seq<seq<Row>>, rest: seq<Row>, k: nat)
    requires columns >= 1 && k < |batches|
  {
    Greedy(columns, batches[k], Following(batches, rest, k))
  }

  lemma OneMoreBatch(columns: nat, batches: seq<seq<Row>>, rest: seq<Row>, batch: seq<Row>)
    requires columns >= 1 && batch != [] && |batch| <= |rest| && batch == rest[..|batch|]
    requires forall k: nat | k < |batches| :: GreedyAt(columns, batches, rest, k)
    requires Greedy(columns, batch, if |batch| < |rest| then Some(rest[|batch|]) else None)
    ensures forall k: nat | k < |batches| + 1 :: GreedyAt(columns, batches + [batch], rest[|batch|..], k)
  {
    hide Greedy;
    forall k: nat | k < |batches| + 1 ensures GreedyAt(columns, batches + [batch], rest[|batch|..], k) {
      if k < |batches| { assert GreedyAt(columns, batches, rest, k); }
    }
  }

  /** Greedy batches, in order, each executed as one statement unless the database refuses one. */
  method InsertRows(columns: nat, rows: seq<Row>, accepts: nat -> bool) returns (batches: Option<seq<seq<Row>>>)
    requires columns >= 1
    ensures batches.Some? ==>
      && Concat(batches.value) == rows
      && (forall row <- rows :: Insertable(columns, row))
      && (forall k: nat | k < |batches.value| :: GreedyAt(columns, batches.value, [], k))
    ensures batches.None? ==> (exists row <- rows :: !Insertable(columns, row)) || (exists k: nat :: !accepts(k))
  {
    hide GreedyAt, Insertable, Greedy;
    var all: seq<seq<Row>> := [];
    var start := 0;
    while start < |rows|
      invariant 0 <= start <= |rows| && Concat(all) == rows[..start]
      invariant forall row <- rows[..start] :: Insertable(columns, row)
      invariant forall k: nat | k < |all| :: GreedyAt(columns, all, rows[start..], k)
      decreases |rows| - start
    {
      var batch := NextBatch(columns, rows, start);
      if batch.None? || !accepts(|all|) { return None; }
      OneMoreBatch(columns, all, rows[start..], batch.value);
      ConcatPlus(all, [batch.value]);
      ConcatOne(batch.value);
      all := all + [batch.value];
      var next := start + |batch.value|;
      assert rows[..next] == rows[..start] + batch.value && rows[start..][|batch.value|..] == rows[next..];
      start := next;
    }
    assert rows[..start] == rows && rows[start..] == [];
    return Some(all);
  }

  method NextBatch(columns: nat, rows: seq<Row>, start: nat) returns (batch: Option<seq<Row>>)
    requires columns >= 1 && start < |rows|
    ensures batch.Some? ==>
      && 0 < |batch.value| <= |rows| - start && batch.value == rows[start..][..|batch.value|]
      && (forall row <- batch.value :: Insertable(columns, row))
      && Greedy(columns, batch.value, if |batch.value| < |rows| - start then Some(rows[start..][|batch.value|]) else None)
    ensures batch.None? ==> exists row <- rows :: !Insertable(columns, row)
  {
    hide RowBytes, RowsBytes, MaxRows;
    var end, estimated := start, 0;
    NoBytes();
    assert rows[start..start] == [];
    while end < |rows| && end - start < MaxRows(columns)
      invariant start <= end <= |rows| && end - start <= MaxRows(columns)
      invariant estimated == RowsBytes(rows[start..end]) <= MAX_INSERT_BYTES
      invariant forall k | start <= k < end :: RowBytes(rows[k]) <= MAX_INSERT_BYTES
    {
      var rowBytes := EstimateRowBytes(rows[end]);
      if rowBytes > MAX_INSERT_BYTES {
        assert rows[end] in rows && !Insertable(columns, rows[end]);
        return None;
      }
      if end > start && estimated + rowBytes > MAX_INSERT_BYTES { break; }
      OneMoreRow(rows[start..end], rows[end]);
      assert rows[start..end + 1] == rows[start..end] + [rows[end]];
      estimated := estimated + rowBytes;
      end := end + 1;
    }
    var found := rows[start..end];
    for k := 0 to |found|
      invariant forall j | 0 <= j < k :: |found[j]| == columns
    {
      if |found[k]| != columns {
        assert found[k] == rows[start + k] && rows[start + k] in rows && !Insertable(columns, found[k]);
        return None;
      }
    }
    assert rows[start..][..|found|] == found;
    return Some(found);
  }

  lemma NoBytes()
    ensures RowsBytes([]) == 0
  {
  }

  lemma OneMoreRow(rows: seq<Row>, row: Row)
    ensures RowsBytes(rows + [row]) == RowsBytes(rows) + RowBytes(row)
  {
    assert (rows + [row])[..|rows|] == rows;
  }
}
