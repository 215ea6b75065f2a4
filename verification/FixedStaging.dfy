/** Staging one Fixed load (internal/ingestionstore/fixed.go, fixed_contract.go), segment by segment. */
module FixedStaging {
  import opened Options
  import opened Calendar
  import opened Chunks
  import opened Framing

  const LENGTH_WIDTH: nat := 4
  const ROW_CHECKSUM_LENGTH: nat := 64
  const CONTRACT_VERSION: nat := 2
  const JOURNAL := "journal_transaction_report"

  datatype Contract = Contract(
    jobKey: string,
    from: CalendarDate,
    to: CalendarDate,
    version: nat,
    publication: PublicationMode,
    requests: RequestMode,
    maxDays: int,
    variants: seq<string>,
    expectedMembers: nat)

  datatype MemberStatus = MemberPending | MemberSuccess

  datatype Member = Member(
    status: MemberStatus,
    from: CalendarDate,
    to: CalendarDate,
    location: string,
    account: string,
    count: nat,
    staged: nat,
    expected: nat,
    checksum: Option<Digest>)

  /** `stated` is the business date the row's own text states, when it parses. */
  datatype SourceRow = SourceRow(number: int, checksum: Bytes, location: string, stated: Option<CalendarDate>)
  datatype Segment = Segment(
    index: int, from: CalendarDate, to: CalendarDate, asOf: CalendarDate, variant: string, rows: seq<SourceRow>)
  datatype Descriptor = Descriptor(from: CalendarDate, to: CalendarDate, location: string, account: string)

  datatype StoredSegment = StoredSegment(
    from: CalendarDate, to: CalendarDate, asOf: CalendarDate, variant: string, count: nat, checksum: Digest)
  datatype SegmentId = SegmentId(member: string, index: nat)
  datatype StagedRow = StagedRow(
    ordinal: nat, index: nat, asOf: CalendarDate, coverage: Option<CalendarDate>, source: SourceRow)

  /** The rows of one load. `staging` lists each member's staged rows by row_ordinal. */
  datatype LoadState = LoadState(
    published: bool,
    members: map<string, Member>,
    segments: map<SegmentId, StoredSegment>,
    staging: map<string, seq<StagedRow>>)

  // ---------------------------------------------------------------------------------------------------------
  // The frozen plan
  // ---------------------------------------------------------------------------------------------------------

  predicate VariantsOk(key: string, variants: seq<string>) {
    if key == JOURNAL then
      && variants != []
      && (forall v <- variants :: v != "" && v != "%")
      && (forall i {:trigger variants[i]} | 0 < i < |variants| :: Less(variants[i - 1], variants[i]))
    else variants == []
  }

  predicate ContractOk(load: Contract, def: Definition) {
    && load.jobKey == def.key
    && load.version == CONTRACT_VERSION
    && load.publication == def.publication
    && load.requests == def.requests
    && load.maxDays == def.maxChunkDays
    && InRange(load.from) && InRange(load.to)
    && InYears(load.from) && Ordinal(load.from) <= Ordinal(load.to)
    && VariantsOk(def.key, load.variants)
  }

  function Partitions(load: Contract): (p: nat)
    ensures p >= 1
  {
    if |load.variants| > 1 then |load.variants| else 1
  }

  function Variant(load: Contract, index: nat): string {
    if load.variants == [] then "" else load.variants[index % Partitions(load)]
  }

  predicate Planned(def: Definition, load: Contract, m: Member) {
    && InRange(m.from) && InRange(m.to)
    && SourceChunks(def, m.from, m.to).Some?
    && m.expected == |SourceChunks(def, m.from, m.to).value| * Partitions(load)
  }

  lemma IndexInChunks(index: nat, chunks: nat, p: nat)
    requires p >= 1 && index < chunks * p
    ensures index / p < chunks
  {
    var q := index / p;
    assert q >= chunks ==> q * p >= chunks * p;
  }

  function ChunkAt(def: Definition, load: Contract, m: Member, index: nat): DateChunk
    requires Planned(def, load, m) && index < m.expected
  {
    var chunks := SourceChunks(def, m.from, m.to).value;
    IndexInChunks(index, |chunks|, Partitions(load));
    chunks[index / Partitions(load)]
  }

  predicate SegmentFits(def: Definition, load: Contract, m: Member, s: Segment) {
    && Planned(def, load, m)
    && 0 <= s.index < m.expected
    && s.from == ChunkAt(def, load, m, s.index).from
    && s.to == ChunkAt(def, load, m, s.index).to
    && s.asOf == s.to
    && s.variant == Variant(load, s.index)
  }

  /** Chunk times variant: each pair has exactly one index, and each index one pair. */
  lemma IndexBijection(load: Contract, chunks: nat, chunk: nat, variant: nat)
    requires chunk < chunks && variant < Partitions(load)
    ensures var p := Partitions(load); var index := chunk * p + variant;
            && index < chunks * p
            && index / p == chunk && index % p == variant
            && (forall i: nat {:trigger i / p} | i / p == chunk && i % p == variant :: i == index)
  {
    hide Partitions;
    var p := Partitions(load);
    IndexBound(chunks, chunk, variant, p);
    Quotient(chunk, variant, p);
    forall i: nat {:trigger i / p} | i / p == chunk && i % p == variant ensures i == chunk * p + variant { Recompose(i, p); }
  }

  lemma IndexBound(chunks: nat, chunk: nat, variant: nat, p: nat)
    requires chunk < chunks && variant < p
    ensures chunk * p + variant < chunks * p
  {
    assert (chunk + 1) * p <= chunks * p;
  }

  lemma Recompose(i: nat, p: nat)
    requires p >= 1
    ensures i == (i / p) * p + i % p
  {
  }

  lemma Quotient(q: nat, r: nat, p: nat)
    requires r < p
    ensures (q * p + r) / p == q && (q * p + r) % p == r
  {
    var n := q * p + r;
    assert n == (n / p) * p + n % p;
    var d := n / p;
    assert d > q ==> d * p >= (q + 1) * p;
    assert d < q ==> (d + 1) * p <= q * p;
  }

  // ---------------------------------------------------------------------------------------------------------
  // Staging
  // ---------------------------------------------------------------------------------------------------------

  /** The business date of a row of a segment that ends on `asOf`. */
  function CoverageOf(def: Definition, row: SourceRow, asOf: CalendarDate): Option<CalendarDate> {
    if def.publication == IntervalResult then None
    else if def.snapshotDate then (if IsZero(asOf) then None else Some(asOf))
    else if row.stated.Some? && InRange(row.stated.value) && row.stated.value.year >= FIRST_YEAR then row.stated
    else None
  }

  predicate CoverageFits(def: Definition, row: SourceRow, from: CalendarDate, to: CalendarDate, asOf: CalendarDate) {
    def.publication == DateAddressable ==>
      && CoverageOf(def, row, asOf).Some?
      && Ordinal(from) <= Ordinal(CoverageOf(def, row, asOf).value) <= Ordinal(to)
  }

  predicate RowFits(def: Definition, locations: bool, m: Member, s: Segment, row: SourceRow) {
    && row.number >= 2
    && |row.checksum| == ROW_CHECKSUM_LENGTH
    && (locations ==> m.location != "" && row.location == m.location)
    && CoverageFits(def, row, s.from, s.to, s.asOf)
  }

  function Staged(def: Definition, index: nat, asOf: CalendarDate, first: nat, rows: seq<SourceRow>): (r: seq<StagedRow>)
    ensures |r| == |rows|
  {
    seq(|rows|, n requires 0 <= n < |rows| => StagedRow(first + n, index, asOf, CoverageOf(def, rows[n], asOf), rows[n]))
  }

  function SourceChecksums(rows: seq<SourceRow>): seq<Bytes> {
    seq(|rows|, n requires 0 <= n < |rows| => rows[n].checksum)
  }

  function Checksums(rows: seq<StagedRow>): seq<Bytes> {
    seq(|rows|, n requires 0 <= n < |rows| => rows[n].source.checksum)
  }

  /** The checks on the load, the member and the segment's place in the plan. */
  predicate Admissible(def: Definition, load: Contract, s: LoadState, key: string, d: Descriptor, segment: Segment) {
    && key in s.members && key in s.staging
    && s.members[key].status == MemberPending
    && segment.index == s.members[key].staged
    && ContractOk(load, def)
    && !s.published
    && d == Descriptor(s.members[key].from, s.members[key].to, s.members[key].location, s.members[key].account)
    && SegmentFits(def, load, s.members[key], segment)
  }

  predicate CanStage(def: Definition, locations: bool, load: Contract, s: LoadState, key: string, d: Descriptor,
                     segment: Segment) {
    && Admissible(def, load, s, key, d, segment)
    && (forall row <- segment.rows :: RowFits(def, locations, s.members[key], segment, row))
  }

  function Stored(h: Hash, s: Segment): StoredSegment {
    StoredSegment(s.from, s.to, s.asOf, s.variant, |s.rows|, h(Frames(SourceChecksums(s.rows), LENGTH_WIDTH)))
  }

  function Stage(h: Hash, def: Definition, locations: bool, load: Contract, s: LoadState, key: string, d: Descriptor,
                 segment: Segment): Option<LoadState> {
    if !CanStage(def, locations, load, s, key, d, segment) then None
    else
      var m := s.members[key];
      Some(LoadState(
             s.published,
             s.members[key := m.(count := m.count + |segment.rows|, staged := m.staged + 1)],
             s.segments[SegmentId(key, segment.index) := Stored(h, segment)],
             s.staging[key := s.staging[key] + Staged(def, segment.index, segment.asOf, m.count + 1, segment.rows)]))
  }

  function Finalize(def: Definition, load: Contract, s: LoadState, key: string, segments: nat, rows: nat, checksum: Digest)
    : Option<LoadState>
  {
    if key !in s.members || segments < 1 then None
    else
      var m := s.members[key];
      if m.expected != segments || m.staged != segments || m.count != rows then None
      else if m.status == MemberSuccess then (if m.checksum == Some(checksum) then Some(s) else None)
      else if load.jobKey != def.key || s.published then None
      else Some(s.(members := s.members[key := m.(status := MemberSuccess, checksum := Some(checksum))]))
  }

  // ---------------------------------------------------------------------------------------------------------
  // What promotion checks
  // ---------------------------------------------------------------------------------------------------------

  function OfSegment(rows: seq<StagedRow>, index: nat): seq<StagedRow> {
    if rows == [] then []
    else
      var last := rows[|rows| - 1];
      OfSegment(rows[..|rows| - 1], index) + (if last.index == index then [last] else [])
  }

  function RowTotal(s: LoadState, key: string, n: nat): nat {
    if n == 0 then 0
    else RowTotal(s, key, n - 1) + (if SegmentId(key, n - 1) in s.segments then s.segments[SegmentId(key, n - 1)].count else 0)
  }

  predicate StoredFits(def: Definition, load: Contract, m: Member, index: nat, stored: StoredSegment) {
    SegmentFits(def, load, m, Segment(index, stored.from, stored.to, stored.asOf, stored.variant, []))
  }

  ghost predicate MemberSegmentsOk(def: Definition, load: Contract, s: LoadState, key: string)
    requires key in s.members
  {
    var m := s.members[key];
    && m.expected > 0
    && m.staged == m.expected
    && (forall i: nat :: SegmentId(key, i) in s.segments <==> i < m.expected)
    && (forall i: nat | i < m.expected :: StoredFits(def, load, m, i, s.segments[SegmentId(key, i)]))
    && RowTotal(s, key, m.expected) == m.count
  }

  ghost predicate SegmentsOk(def: Definition, load: Contract, s: LoadState) {
    && (forall id <- s.segments :: id.member in s.members)
    && (forall key <- s.members :: MemberSegmentsOk(def, load, s, key))
  }

  /** Some member takes the location's snapshot of the day. */
  ghost predicate Snapshotted(members: map<string, Member>, location: string, day: nat) {
    exists key <- members :: members[key].location == location && Ordinal(members[key].from) == day
  }

  /** Every location has exactly one snapshot of every day of the load. */
  ghost predicate SnapshotsOk(load: Contract, members: map<string, Member>) {
    && (forall key <- members :: members[key].from == members[key].to && members[key].location != "")
    && (forall j <- members, k <- members | j != k ::
          members[j].from != members[k].from || members[j].location != members[k].location)
    && (forall key <- members, day: nat {:trigger Snapshotted(members, members[key].location, day)} ::
          Ordinal(load.from) <= day <= Ordinal(load.to) ==> Snapshotted(members, members[key].location, day))
  }

  predicate InLoad(load: Contract, m: Member) {
    Ordinal(load.from) <= Ordinal(m.from) && Ordinal(m.to) <= Ordinal(load.to)
  }

  /** The members lie within the load; they are single days or, outside snapshots, the whole range. */
  ghost predicate ShapeOk(def: Definition, load: Contract, members: map<string, Member>) {
    && (forall key <- members :: InLoad(load, members[key]))
    && (if def.snapshotDate then SnapshotsOk(load, members)
        else forall key <- members :: members[key].from == load.from && members[key].to == load.to)
  }

  predicate StagedRowOk(def: Definition, s: LoadState, key: string, row: StagedRow) {
    && SegmentId(key, row.index) in s.segments
    && row.asOf == s.segments[SegmentId(key, row.index)].asOf
    && (def.publication == DateAddressable ==>
          && row.coverage.Some?
          && row.coverage == CoverageOf(def, row.source, row.asOf)
          && Ordinal(s.segments[SegmentId(key, row.index)].from) <= Ordinal(row.coverage.value)
             <= Ordinal(s.segments[SegmentId(key, row.index)].to))
  }

  ghost predicate MemberRowsOk(h: Hash, def: Definition, s: LoadState, key: string)
    requires key in s.members && key in s.staging
  {
    var rows := s.staging[key];
    && (forall row <- rows :: StagedRowOk(def, s, key, row))
    && |rows| == s.members[key].count
    && s.members[key].checksum == Some(h(Frames(Checksums(rows), LENGTH_WIDTH)))
    && (forall i: nat | SegmentId(key, i) in s.segments ::
          && |OfSegment(rows, i)| == s.segments[SegmentId(key, i)].count
          && h(Frames(Checksums(OfSegment(rows, i)), LENGTH_WIDTH)) == s.segments[SegmentId(key, i)].checksum)
  }

  /** The checks between locking the load and replacing the final rows. */
  ghost predicate Accepts(h: Hash, def: Definition, load: Contract, s: LoadState) {
    && ContractOk(load, def)
    && |s.members| == load.expectedMembers
    && (forall key <- s.members :: s.members[key].status == MemberSuccess)
    && SegmentsOk(def, load, s)
    && ShapeOk(def, load, s.members)
    && s.staging.Keys == s.members.Keys
    && (forall key <- s.members :: MemberRowsOk(h, def, s, key))
  }
}
