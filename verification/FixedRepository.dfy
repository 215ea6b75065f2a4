/**
 The Fixed repository and the executor that drives it, statement by statement: staging and finalizing members, reading
 the staged rows back, and the loops that fetch a member request by request.
*/
module FixedRepository {
  import opened Options
  import opened Calendar
  import opened Chunks
  import opened Framing
  import opened FixedStaging
  import opened FixedRuns

  class Load {
    const plan: Plan
    var published: bool
    var members: map<string, Member>
    var segments: map<SegmentId, StoredSegment>
    var staging: map<string, seq<StagedRow>>

    constructor (plan: Plan, members: map<string, Member>)
      ensures this.plan == plan
      ensures State() == LoadState(false, members, map[], map key <- members :: [])
    {
      this.plan := plan;
      this.published, this.members, this.segments, this.staging := false, members, map[], map key <- members :: [];
    }

    function State(): LoadState
      reads this
    {
      LoadState(published, members, segments, staging)
    }

    /** One transaction: checks the segment, inserts its rows, records it and counts it. */
    method StageMemberSegment(key: string, d: Descriptor, segment: Segment) returns (ok: bool)
      modifies this`members, this`segments, this`staging
      ensures var r := Stage(plan.h, plan.def, plan.locations, plan.contract, old(State()), key, d, segment);
              && ok == r.Some?
              && State() == if ok then r.value else old(State())
    {
      hide Stage, CanStage, RowFits, Admissible, Staged, SourceChecksums, Frames;
      StageDecides(plan, State(), key, d, segment);
      var admissible := CheckSegment(key, d, segment);
      if !admissible { return false; }
      var m := members[key];
      var def, locations, index: nat := plan.def, plan.locations, segment.index;
      var fits := (row: SourceRow) => RowFits(def, locations, m, segment, row);
      var fit, rows, hashed := PrepareRows(def, fits, index, segment.asOf, m.count + 1, segment.rows);
      if !fit { return false; }
      staging := staging[key := staging[key] + rows];
      segments := segments[SegmentId(key, index) := StoredSegment(
                    segment.from, segment.to, segment.asOf, segment.variant, |rows|, plan.h(hashed))];
      members := members[key := m.(count := m.count + |rows|, staged := m.staged + 1)];
      return true;
    }

    method CheckSegment(key: string, d: Descriptor, segment: Segment) returns (ok: bool)
      ensures ok == Admissible(plan.def, plan.contract, State(), key, d, segment)
    {
      hide ContractOk, SegmentFits;
      if key !in members || key !in staging { return false; }
      var m := members[key];
      if m.status != MemberPending { return false; }
      if segment.index < 0 || segment.index != m.staged { return false; }
      if !ContractOk(plan.contract, plan.def) || published { return false; }
      if d.from != m.from || d.to != m.to || d.location != m.location || d.account != m.account { return false; }
      return SegmentFits(plan.def, plan.contract, m, segment);
    }

    method FinalizeMemberCandidate(key: string, expected: nat, rows: nat, checksum: Digest) returns (ok: bool)
      modifies this`members
      ensures var r := Finalize(plan.def, plan.contract, old(State()), key, expected, rows, checksum);
              && ok == r.Some?
              && State() == if ok then r.value else old(State())
    {
      if expected < 1 || key !in members { return false; }
      var m := members[key];
      if m.status == MemberSuccess {
        return m.expected == expected && m.staged == expected && m.count == rows && m.checksum == Some(checksum);
      }
      if plan.contract.jobKey != plan.def.key || published { return false; }
      if m.expected != expected || m.staged != expected || m.count != rows { return false; }
      members := members[key := m.(status := MemberSuccess, checksum := Some(checksum))];
      return true;
    }
  }

  /** Reads one member's staged rows in order, counting and hashing them as a whole and segment by segment. */
  method ReadStaged(def: Definition, s: LoadState, key: string, rows: seq<StagedRow>, indexes: set<nat>)
    returns (known: bool, hashed: Bytes, counts: map<nat, nat>, hashes: map<nat, Bytes>)
    requires forall i: nat :: SegmentId(key, i) in s.segments <==> i in indexes
    ensures known <==> forall k | 0 <= k < |rows| :: StagedRowOk(def, s, key, rows[k])
    ensures known ==> hashed == Frames(Checksums(rows), LENGTH_WIDTH)
    ensures counts.Keys == indexes && hashes.Keys == indexes
    ensures known ==> forall i <- indexes :: Aggregated(rows, i, counts[i], hashes[i])
  {
    hide StagedRowOk, Frames, Frame, Checksums, OfSegment, Aggregated;
    known, hashed, counts, hashes := true, [], map i | i in indexes :: 0, map i | i in indexes :: [];
    NothingRead();
    for n := 0 to |rows|
      invariant forall k | 0 <= k < n :: StagedRowOk(def, s, key, rows[k])
      invariant hashed == Frames(Checksums(rows[..n]), LENGTH_WIDTH)
      invariant counts.Keys == indexes && hashes.Keys == indexes
      invariant forall i <- indexes :: Aggregated(rows[..n], i, counts[i], hashes[i])
    {
      var row := rows[n];
      if !StagedRowOk(def, s, key, row) { return false, hashed, counts, hashes; }
      InSegment(def, s, key, row);
      ReadForAll(rows, n, indexes, counts, hashes);
      LastFrame(rows[..n], row);
      assert rows[..n + 1] == rows[..n] + [row];
      hashed := hashed + Frame(row.source.checksum, LENGTH_WIDTH);
      hashes := hashes[row.index := hashes[row.index] + Frame(row.source.checksum, LENGTH_WIDTH)];
      counts := counts[row.index := counts[row.index] + 1];
    }
    assert rows[..|rows|] == rows;
  }

  /** One member's part of the comparison of the staging table with what was recorded. */
  method StagedMemberMatches(h: Hash, def: Definition, s: LoadState, key: string) returns (ok: bool)
    requires key in s.members && key in s.staging
    ensures ok <==> MemberRowsOk(h, def, s, key)
  {
    hide StagedRowOk, Frames, Checksums, OfSegment, Aggregated;
    var rows := s.staging[key];
    var indexes: set<nat> := set id | id in s.segments && id.member == key :: id.index;
    assert forall i: nat :: SegmentId(key, i) in s.segments <==> i in indexes;
    var known, hashed, counts, hashes := ReadStaged(def, s, key, rows, indexes);
    if !known {
      var k :| 0 <= k < |rows| && !StagedRowOk(def, s, key, rows[k]);
      assert rows[k] in rows;
      return false;
    }
    AggregatedIs(rows, indexes, counts, hashes);
    if |rows| != s.members[key].count || s.members[key].checksum != Some(h(hashed)) { return false; }
    ok := forall i <- indexes :: counts[i] == s.segments[SegmentId(key, i)].count
                                 && h(hashes[i]) == s.segments[SegmentId(key, i)].checksum;
  }

  ghost predicate Aggregated(rows: seq<StagedRow>, i: nat, count: nat, hashed: Bytes) {
    && count == |OfSegment(rows, i)|
    && hashed == Frames(Checksums(OfSegment(rows, i)), LENGTH_WIDTH)
  }

  lemma AggregatedIs(rows: seq<StagedRow>, indexes: set<nat>, counts: map<nat, nat>, hashes: map<nat, Bytes>)
    requires counts.Keys == indexes && hashes.Keys == indexes
    requires forall i <- indexes :: Aggregated(rows, i, counts[i], hashes[i])
    ensures forall i <- indexes ::
              counts[i] == |OfSegment(rows, i)| && hashes[i] == Frames(Checksums(OfSegment(rows, i)), LENGTH_WIDTH)
  {
    hide Frames, Checksums, OfSegment;
  }

  /** One more row moves the aggregates of its own segment and no others. */
  lemma ReadForAll(rows: seq<StagedRow>, n: nat, indexes: set<nat>, counts: map<nat, nat>, hashes: map<nat, Bytes>)
    requires n < |rows| && rows[n].index in indexes && counts.Keys == indexes && hashes.Keys == indexes
    requires forall i <- indexes :: Aggregated(rows[..n], i, counts[i], hashes[i])
    ensures var x := rows[n].index;
            var counts', hashes' := counts[x := counts[x] + 1],
                                    hashes[x := hashes[x] + Frame(rows[n].source.checksum, LENGTH_WIDTH)];
            forall i <- indexes :: Aggregated(rows[..n + 1], i, counts'[i], hashes'[i])
  {
    hide Aggregated, Frame;
    forall i <- indexes
      ensures Aggregated(rows[..n + 1], i, counts[i] + (if rows[n].index == i then 1 else 0),
                         hashes[i] + (if rows[n].index == i then Frame(rows[n].source.checksum, LENGTH_WIDTH) else []))
    {
      ReadRow(rows, n, i, counts[i], hashes[i]);
    }
    assert forall i <- indexes :: hashes[i] + [] == hashes[i];
  }

  lemma NothingRead()
    ensures Frames(Checksums([]), LENGTH_WIDTH) == []
    ensures forall i: nat :: Aggregated([], i, 0, [])
  {
    assert Checksums([]) == [];
  }

  lemma InSegment(def: Definition, s: LoadState, key: string, row: StagedRow)
    requires StagedRowOk(def, s, key, row)
    ensures SegmentId(key, row.index) in s.segments
  {
  }

  lemma StageDecides(p: Plan, s: LoadState, key: string, d: Descriptor, segment: Segment)
    ensures Admissible(p.def, p.contract, s, key, d, segment) ==>
      key in s.members && key in s.staging && segment.index >= 0
    ensures var r := Stage(p.h, p.def, p.locations, p.contract, s, key, d, segment);
            if Admissible(p.def, p.contract, s, key, d, segment)
               && (forall row <- segment.rows :: RowFits(p.def, p.locations, s.members[key], segment, row)) then
              var m := s.members[key];
              r == Some(LoadState(
                          s.published,
                          s.members[key := m.(count := m.count + |segment.rows|, staged := m.staged + 1)],
                          s.segments[SegmentId(key, segment.index) := StoredSegment(
                            segment.from, segment.to, segment.asOf, segment.variant, |segment.rows|,
                            p.h(Frames(SourceChecksums(segment.rows), LENGTH_WIDTH)))],
                          s.staging[key := s.staging[key]
                            + Staged(p.def, segment.index, segment.asOf, m.count + 1, segment.rows)]))
            else r == None
  {
    hide RowFits, Staged, Frames, SourceChecksums;
  }

  /** Checks the rows of a segment one by one while building what is inserted and what is hashed. */
  method PrepareRows(def: Definition, fits: SourceRow -> bool, index: nat, asOf: CalendarDate, first: nat,
                     source: seq<SourceRow>)
    returns (fit: bool, rows: seq<StagedRow>, hashed: Bytes)
    ensures fit <==> forall row <- source :: fits(row)
    ensures fit ==> rows == Staged(def, index, asOf, first, source)
    ensures fit ==> hashed == Frames(SourceChecksums(source), LENGTH_WIDTH)
  {
    hide *;
    fit, rows, hashed := true, [], [];
    NothingPrepared(def, index, asOf, first, source);
    for n := 0 to |source|
      invariant forall k | 0 <= k < n :: fits(source[k])
      invariant rows == Staged(def, index, asOf, first, source[..n])
      invariant hashed == Frames(SourceChecksums(source[..n]), LENGTH_WIDTH)
    {
      if !fits(source[n]) { return false, rows, hashed; }
      var coverage := CoverageOf(def, source[n], asOf);
      ExtendStaged(def, index, asOf, first, source, n);
      rows := rows + [StagedRow(first + n, index, asOf, coverage, source[n])];
      ExtendChecksums(source, n);
      hashed := hashed + Frame(source[n].checksum, LENGTH_WIDTH);
    }
    assert source[..|source|] == source;
  }

  lemma NothingPrepared(def: Definition, index: nat, asOf: CalendarDate, first: nat, source: seq<SourceRow>)
    ensures Staged(def, index, asOf, first, source[..0]) == []
    ensures Frames(SourceChecksums(source[..0]), LENGTH_WIDTH) == []
  {
    assert SourceChecksums(source[..0]) == [];
  }

  lemma ExtendStaged(def: Definition, index: nat, asOf: CalendarDate, first: nat, rows: seq<SourceRow>, n: nat)
    requires n < |rows|
    ensures Staged(def, index, asOf, first, rows[..n + 1])
         == Staged(def, index, asOf, first, rows[..n])
            + [StagedRow(first + n, index, asOf, CoverageOf(def, rows[n], asOf), rows[n])]
  {
    hide CoverageOf;
  }

  lemma ExtendChecksums(rows: seq<SourceRow>, n: nat)
    requires n < |rows|
    ensures Frames(SourceChecksums(rows[..n + 1]), LENGTH_WIDTH)
         == Frames(SourceChecksums(rows[..n]), LENGTH_WIDTH) + Frame(rows[n].checksum, LENGTH_WIDTH)
  {
    var a := SourceChecksums(rows[..n + 1]);
    assert a[..|a| - 1] == SourceChecksums(rows[..n]);
  }

  lemma ReadRow(rows: seq<StagedRow>, n: nat, i: nat, count: nat, hashed: Bytes)
    requires n < |rows| && Aggregated(rows[..n], i, count, hashed)
    ensures Aggregated(rows[..n + 1], i, count + (if rows[n].index == i then 1 else 0),
                       hashed + (if rows[n].index == i then Frame(rows[n].source.checksum, LENGTH_WIDTH) else []))
  {
    hide Frames, Frame, Checksums;
    assert rows[..n + 1][..n] == rows[..n];
    var before := OfSegment(rows[..n], i);
    LastFrame(before, rows[n]);
    assert before + [] == before && hashed + [] == hashed;
  }

  lemma LastFrame(rows: seq<StagedRow>, row: StagedRow)
    ensures Frames(Checksums(rows + [row]), LENGTH_WIDTH)
         == Frames(Checksums(rows), LENGTH_WIDTH) + Frame(row.source.checksum, LENGTH_WIDTH)
  {
    var a := Checksums(rows + [row]);
    assert a[..|a| - 1] == Checksums(rows);
  }

  // ---------------------------------------------------------------------------------------------------------
  // The executor
  // ---------------------------------------------------------------------------------------------------------

  /** A download with its parsing: a function of the request, which may fail. */
  type Source = (DateChunk, string) -> Option<seq<SourceRow>>

  /** The row sets of the first n requests, chunk by chunk and within a chunk variant by variant. */
  ghost predicate FetchedFrom(source: Source, p: Plan, m: Member, fetched: seq<seq<SourceRow>>)
    requires Planned(p.def, p.contract, m) && |fetched| <= m.expected
  {
    forall i: nat | i < |fetched| ::
      source(ChunkAt(p.def, p.contract, m, i), Variant(p.contract, i)) == Some(fetched[i])
  }

  ghost predicate Sums(fetched: seq<seq<SourceRow>>, rows: nat, hashed: Bytes) {
    && rows == |Flatten(fetched)|
    && hashed == Frames(SourceChecksums(Flatten(fetched)), LENGTH_WIDTH)
  }

  /** The member is still being staged, and holds what was fetched so far. */
  ghost predicate Held(p: Plan, s: LoadState, key: string, start: Member, source: Source, fetched: seq<seq<SourceRow>>) {
    && key in s.members
    && s.members[key] == start.(count := s.members[key].count, staged := s.members[key].staged)
    && MemberInv(p, s, key, s.members[key], fetched)
    && FetchedFrom(source, p, s.members[key], fetched)
  }

  lemma HeldFirst(p: Plan, s: LoadState, key: string, source: Source)
    requires key in s.members && MemberInv(p, s, key, s.members[key], [])
    ensures Held(p, s, key, s.members[key], source, []) && Planned(p.def, p.contract, s.members[key])
    ensures Sums([], 0, [])
  {
    assert SourceChecksums([]) == [];
  }

  lemma HeldStep(p: Plan, s: LoadState, s': LoadState, key: string, start: Member, source: Source,
                 fetched: seq<seq<SourceRow>>, rows: seq<SourceRow>)
    requires Held(p, s, key, start, source, fetched) && |fetched| < start.expected
    requires source(ChunkAt(p.def, p.contract, start, |fetched|), Variant(p.contract, |fetched|)) == Some(rows)
    requires Stage(p.h, p.def, p.locations, p.contract, s, key, DescriptorOf(start), SegmentOf(p, start, |fetched|, rows))
             == Some(s')
    ensures Held(p, s', key, start, source, fetched + [rows])
  {
    SameSegment(p, start, s.members[key], |fetched|, rows);
    StagedMember(p, s, s', key, fetched, rows);
    var m, m' := s.members[key], s'.members[key];
    forall i: nat | i < |fetched + [rows]|
      ensures source(ChunkAt(p.def, p.contract, m', i), Variant(p.contract, i)) == Some((fetched + [rows])[i])
    {
      SameSegment(p, start, m', i, []);
      SameSegment(p, start, m, i, []);
    }
  }

  lemma SameSegment(p: Plan, m: Member, m': Member, i: nat, rows: seq<SourceRow>)
    requires Planned(p.def, p.contract, m) && i < m.expected
    requires m'.from == m.from && m'.to == m.to && m'.expected == m.expected
    ensures Planned(p.def, p.contract, m') && SegmentOf(p, m', i, rows) == SegmentOf(p, m, i, rows)
    ensures ChunkAt(p.def, p.contract, m', i) == ChunkAt(p.def, p.contract, m, i)
  {
  }

  lemma HeldFinalize(p: Plan, s: LoadState, s': LoadState, key: string, start: Member, source: Source,
                     fetched: seq<seq<SourceRow>>)
    requires Held(p, s, key, start, source, fetched) && start.status == MemberPending
    requires Finalize(p.def, p.contract, s, key, |fetched|, |Flatten(fetched)|,
                      p.h(Frames(SourceChecksums(Flatten(fetched)), LENGTH_WIDTH))) == Some(s')
    ensures key in s'.members && MemberInv(p, s', key, s'.members[key], fetched)
    ensures s'.members[key].status == MemberSuccess && FetchedFrom(source, p, s'.members[key], fetched)
  {
    FinalizedMember(p, s, s', key, fetched);
    forall i: nat | i < |fetched|
      ensures source(ChunkAt(p.def, p.contract, s'.members[key], i), Variant(p.contract, i)) == Some(fetched[i])
    {
      SameSegment(p, s.members[key], s'.members[key], i, []);
    }
  }

  lemma ExtendSums(fetched: seq<seq<SourceRow>>, rows: nat, hashed: Bytes, parsed: seq<SourceRow>)
    requires Sums(fetched, rows, hashed)
    ensures Sums(fetched + [parsed], rows + |parsed|, hashed + Frames(SourceChecksums(parsed), LENGTH_WIDTH))
  {
    assert (fetched + [parsed])[..|fetched + [parsed]| - 1] == fetched;
    SourceChecksumsConcat(Flatten(fetched), parsed);
    FramesConcat(SourceChecksums(Flatten(fetched)), SourceChecksums(parsed), LENGTH_WIDTH);
  }

  lemma HeldLast(p: Plan, s: LoadState, key: string, start: Member, source: Source, fetched: seq<seq<SourceRow>>)
    requires Held(p, s, key, start, source, fetched)
    ensures key in s.members && MemberInv(p, s, key, s.members[key], fetched)
    ensures FetchedFrom(source, p, s.members[key], fetched)
  {
  }

  /** The loop's request is the plan's. */
  lemma Requested(p: Plan, start: Member, chunks: seq<DateChunk>, variants: seq<string>, c: nat, v: nat)
    requires Planned(p.def, p.contract, start) && SourceChunks(p.def, start.from, start.to) == Some(chunks)
    requires variants == if p.contract.variants == [] then [""] else p.contract.variants
    requires c < |chunks| && v < |variants|
    ensures var index := c * |variants| + v;
            && index < start.expected
            && ChunkAt(p.def, p.contract, start, index) == chunks[c]
            && Variant(p.contract, index) == variants[v]
  {
    hide SourceChunks;
    IndexBijection(p.contract, |chunks|, c, v);
  }

  /** One request: download, stage, and hash what was staged. */
  method FetchSegment(load: Load, key: string, start: Member, source: Source, index: nat, chunk: DateChunk, variant: string,
                      rows: nat, hashed: Bytes, ghost fetched: seq<seq<SourceRow>>)
    returns (staged: bool, rows': nat, hashed': Bytes, ghost fetched': seq<seq<SourceRow>>)
    requires Held(load.plan, load.State(), key, start, source, fetched) && Sums(fetched, rows, hashed)
    requires Planned(load.plan.def, load.plan.contract, start) && index == |fetched| < start.expected
    requires chunk == ChunkAt(load.plan.def, load.plan.contract, start, index)
    requires variant == Variant(load.plan.contract, index)
    modifies load
    ensures Held(load.plan, load.State(), key, start, source, fetched') && Sums(fetched', rows', hashed')
    ensures |fetched'| == if staged then |fetched| + 1 else |fetched|
  {
    hide Held, Sums, Stage, Planned, ChunkAt, Variant, Frames, SourceChecksums;
    staged, rows', hashed', fetched' := false, rows, hashed, fetched;
    var parsed := source(chunk, variant);
    if parsed.None? { return; }
    var segment := Segment(index, chunk.from, chunk.to, chunk.to, variant, parsed.value);
    ghost var before := load.State();
    staged := load.StageMemberSegment(key, DescriptorOf(start), segment);
    if !staged { return; }
    HeldStep(load.plan, before, load.State(), key, start, source, fetched, parsed.value);
    ExtendSums(fetched, rows, hashed, parsed.value);
    rows' := rows + |parsed.value|;
    hashed' := WriteChecksums(hashed, parsed.value);
    fetched' := fetched + [parsed.value];
  }

  /** Fetches, stages and finalizes one member, hashing the rows as they come. */
  method FetchAndStageMember(load: Load, key: string, source: Source)
    returns (ok: bool, ghost fetched: seq<seq<SourceRow>>)
    requires key in load.members && load.members[key].status == MemberPending
    requires MemberInv(load.plan, load.State(), key, load.members[key], [])
    modifies load
    ensures key in load.members
    ensures MemberInv(load.plan, load.State(), key, load.members[key], fetched)
    ensures FetchedFrom(source, load.plan, load.members[key], fetched)
    ensures ok ==> load.members[key].status == MemberSuccess
  {
    hide MemberInv, Frames, SourceChecksums, Flatten, Finalize, Held, SourceChunks, ChunkAt, Variant, FetchedFrom, Planned,
         Partitions;
    ok, fetched := false, [];
    HeldFirst(load.plan, load.State(), key, source);
    var plan, start := load.plan, load.members[key];
    var (chunks, variants) := FrozenRequests(plan, start);
    var rows: nat, hashed: Bytes := 0, [];
    for c := 0 to |chunks|
      invariant Held(plan, load.State(), key, start, source, fetched)
      invariant |fetched| == c * |variants| && Sums(fetched, rows, hashed)
    {
      for v := 0 to |variants|
        invariant Held(plan, load.State(), key, start, source, fetched)
        invariant |fetched| == c * |variants| + v && Sums(fetched, rows, hashed)
      {
        Requested(plan, start, chunks, variants, c, v);
        var staged;
        staged, rows, hashed, fetched :=
          FetchSegment(load, key, start, source, c * |variants| + v, chunks[c], variants[v], rows, hashed, fetched);
        if !staged {
          HeldLast(plan, load.State(), key, start, source, fetched);
          return;
        }
      }
    }
    HeldLast(plan, load.State(), key, start, source, fetched);
    ghost var before := load.State();
    ok := load.FinalizeMemberCandidate(key, |chunks| * |variants|, rows, plan.h(hashed));
    if ok { HeldFinalize(plan, before, load.State(), key, start, source, fetched); }
  }

  function FrozenRequests(p: Plan, start: Member): (r: (seq<DateChunk>, seq<string>))
    requires Planned(p.def, p.contract, start)
  {
    (SourceChunks(p.def, start.from, start.to).value, if p.contract.variants == [] then [""] else p.contract.variants)
  }

  method WriteChecksums(hashed: Bytes, rows: seq<SourceRow>) returns (r: Bytes)
    ensures r == hashed + Frames(SourceChecksums(rows), LENGTH_WIDTH)
  {
    r := hashed;
    assert SourceChecksums(rows[..0]) == [] && hashed + [] == hashed;
    hide Frames, Frame, SourceChecksums;
    for n := 0 to |rows|
      invariant r == hashed + Frames(SourceChecksums(rows[..n]), LENGTH_WIDTH)
    {
      ExtendChecksums(rows, n);
      Associate(hashed, Frames(SourceChecksums(rows[..n]), LENGTH_WIDTH), Frame(rows[n].checksum, LENGTH_WIDTH));
      r := r + Frame(rows[n].checksum, LENGTH_WIDTH);
    }
    assert rows[..|rows|] == rows;
  }
}
