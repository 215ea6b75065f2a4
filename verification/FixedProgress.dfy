/** Exactly what a Fixed load's executor can stage and finalize, and that a load can always be completed. */
module FixedProgress {
  import opened Options
  import opened Calendar
  import opened Chunks
  import opened Framing
  import opened FixedStaging
  import opened FixedRuns

  /** The row's number, checksum and location are those of a data row of the member, and its date lies in the chunk. */
  predicate Fits(p: Plan, m: Member, chunk: DateChunk, row: SourceRow) {
    && row.number >= 2 && |row.checksum| == 64
    && (p.locations ==> row.location == m.location != "")
    && (p.def.publication == DateAddressable ==>
          var date := if p.def.snapshotDate then (if IsZero(chunk.to) then None else Some(chunk.to)) else row.stated;
          && date.Some?
          && (!p.def.snapshotDate ==> InRange(date.value) && date.value.year >= FIRST_YEAR)
          && Ordinal(chunk.from) <= Ordinal(date.value) <= Ordinal(chunk.to))
  }

  ghost predicate AllFit(p: Plan, m: Member, index: nat, rows: seq<SourceRow>) {
    Planned(p.def, p.contract, m) && index < m.expected
    && forall row <- rows :: Fits(p, m, ChunkAt(p.def, p.contract, m, index), row)
  }

  lemma FitsIsRowFits(p: Plan, m: Member, index: nat, rows: seq<SourceRow>)
    requires Planned(p.def, p.contract, m) && index < m.expected
    ensures AllFit(p, m, index, rows)
       <==> forall row <- rows :: RowFits(p.def, p.locations, m, SegmentOf(p, m, index, rows), row)
  {
    hide Planned, ChunkAt, Ordinal;
    forall row <- rows
      ensures Fits(p, m, ChunkAt(p.def, p.contract, m, index), row)
         <==> RowFits(p.def, p.locations, m, SegmentOf(p, m, index, rows), row)
    {
    }
  }

  /** Where a load's executor is: nothing stops this member, and the load still takes rows. */
  ghost predicate Open(p: Plan, s: System, key: string) {
    && key in s.load.members && key in s.executor.fetched && key !in s.executor.stopped
    && ContractOk(p.contract, p.def) && !s.load.published
  }

  /**
   The next segment of a member is staged exactly if all its rows fit: they are appended in order, under the chunk's last
   day and the next ordinals, and nothing else changes; otherwise nothing is staged and the member stops.
  */
  lemma StagesExactly(p: Plan, s: System, events: seq<Event>, r: System, key: string, rows: seq<SourceRow>)
    requires Created(p, s) && r == Run(p, s, events) && Open(p, r, key)
    requires |r.executor.fetched[key]| < r.load.members[key].expected
    ensures var m, n, r' := r.load.members[key], |r.executor.fetched[key]|, Step(p, r, EStage(key, rows, true));
            && key in r.load.staging
            && if AllFit(p, m, n, rows) then
                 && r'.executor == r.executor.(fetched := r.executor.fetched[key := r.executor.fetched[key] + [rows]])
                 && r'.load.published == r.load.published
                 && r'.load.members == r.load.members[key := m.(count := m.count + |rows|, staged := n + 1)]
                 && key in r'.load.staging && r'.load.staging == r.load.staging[key := r'.load.staging[key]]
                 && |r'.load.staging[key]| == |r.load.staging[key]| + |rows| && r.load.staging[key] <= r'.load.staging[key]
                 && (forall k: nat | k < |rows| ::
                       var row := r'.load.staging[key][|r.load.staging[key]| + k];
                       && row.source == rows[k] && row.index == n && row.ordinal == |r.load.staging[key]| + k + 1
                       && row.asOf == ChunkAt(p.def, p.contract, m, n).to)
               else r'.load == r.load && r'.executor == r.executor.(stopped := r.executor.stopped + {key})
  {
    hide Run, Inv, Created, ContractOk, Planned, RowFits, SegmentOf, ChunkAt, CoverageOf, Frames, AllFit, Stored;
    RunKeeps(p, s, events);
    var m, n := r.load.members[key], |r.executor.fetched[key]|;
    MemberAt(p, r, key);
    FitsIsRowFits(p, m, n, rows);
    NextFits(p, m, n, rows);
  }

  lemma MemberAt(p: Plan, s: System, key: string)
    requires Inv(p, s) && key in s.load.members
    ensures key in s.executor.fetched && key in s.load.staging
    ensures var m, n := s.load.members[key], |s.executor.fetched[key]|;
            && Planned(p.def, p.contract, m) && m.staged == n <= m.expected && m.count == |s.load.staging[key]|
            && |Flatten(s.executor.fetched[key])| == m.count
            && (n < m.expected ==> m.status == MemberPending)
            && (m.status == MemberSuccess ==>
                  m.checksum == Some(p.h(Frames(SourceChecksums(Flatten(s.executor.fetched[key])), LENGTH_WIDTH))))
  {
    hide SegmentKept, ChunkAt, Planned, Frames, Flatten, SourceChecksums, AllStaged, Checksums;
    assert MemberInv(p, s.load, key, s.load.members[key], s.executor.fetched[key]);
    FlattenLength(p, s.load.members[key], s.executor.fetched[key]);
  }

  lemma NextFits(p: Plan, m: Member, n: nat, rows: seq<SourceRow>)
    requires Planned(p.def, p.contract, m) && n < m.expected
    ensures SegmentFits(p.def, p.contract, m, SegmentOf(p, m, n, rows))
    ensures SegmentOf(p, m, n, rows).index == n && SegmentOf(p, m, n, rows).rows == rows
    ensures SegmentOf(p, m, n, rows).asOf == ChunkAt(p.def, p.contract, m, n).to
  {
    hide Planned, ChunkAt, Variant;
  }

  /** A member is finalized exactly when every segment of its plan was staged; before that finalizing stops it. */
  lemma FinalizesExactly(p: Plan, s: System, events: seq<Event>, r: System, key: string)
    requires Created(p, s) && r == Run(p, s, events) && Open(p, r, key)
    ensures var m, r' := r.load.members[key], Step(p, r, EFinalize(key, true));
            var sum := p.h(Frames(SourceChecksums(Flatten(r.executor.fetched[key])), LENGTH_WIDTH));
            if |r.executor.fetched[key]| == m.expected > 0 then
              r' == r.(load := r.load.(members := r.load.members[key := m.(status := MemberSuccess, checksum := Some(sum))]))
            else r' == r.(executor := r.executor.(stopped := r.executor.stopped + {key}))
  {
    hide Run, Inv, Created, Planned, Frames, Flatten, SourceChecksums;
    RunKeeps(p, s, events);
    MemberAt(p, r, key);
  }

  function Staging(key: string, rest: seq<seq<SourceRow>>): seq<Event> {
    seq(|rest|, n requires 0 <= n < |rest| => EStage(key, rest[n], true))
  }

  lemma RunMore(p: Plan, s: System, events: seq<Event>, e: Event)
    ensures Run(p, s, events + [e]) == Step(p, Run(p, s, events), e)
  {
    assert (events + [e])[..|events + [e]| - 1] == events;
  }

  /** Rows that fit their segments are all staged, from wherever the member is. */
  lemma {:induction false} StagesRest(p: Plan, s: System, events: seq<Event>, key: string, rest: seq<seq<SourceRow>>)
    requires Created(p, s) && Open(p, Run(p, s, events), key)
    requires var r := Run(p, s, events);
             && |r.executor.fetched[key]| + |rest| <= r.load.members[key].expected
             && forall n: nat | n < |rest| :: AllFit(p, r.load.members[key], |r.executor.fetched[key]| + n, rest[n])
    ensures var r, r' := Run(p, s, events), Run(p, s, events + Staging(key, rest));
            && Open(p, r', key)
            && r'.executor.fetched == r.executor.fetched[key := r.executor.fetched[key] + rest]
            && r'.executor.stopped == r.executor.stopped
            && r'.load.members.Keys == r.load.members.Keys
            && (forall k <- r.load.members | k != key :: r'.load.members[k] == r.load.members[k])
            && SamePlace(r.load.members[key], r'.load.members[key])
  {
    hide Run, Step, Created, AllFit, ContractOk;
    var r := Run(p, s, events);
    if rest == [] {
      assert events + Staging(key, rest) == events;
      assert r.executor.fetched[key] + rest == r.executor.fetched[key];
    } else {
      var n := |rest| - 1;
      StagesRest(p, s, events, key, rest[..n]);
      var staged := events + Staging(key, rest[..n]);
      assert events + Staging(key, rest) == staged + [EStage(key, rest[n], true)];
      RunMore(p, s, staged, EStage(key, rest[n], true));
      SameFit(p, r.load.members[key], Run(p, s, staged).load.members[key], |r.executor.fetched[key]| + n, rest[n]);
      StagesExactly(p, s, staged, Run(p, s, staged), key, rest[n]);
      assert r.executor.fetched[key] + rest[..n] + [rest[n]] == r.executor.fetched[key] + rest;
    }
  }

  predicate SamePlace(m: Member, m': Member) {
    m'.from == m.from && m'.to == m.to && m'.location == m.location && m'.account == m.account && m'.expected == m.expected
  }

  lemma SameFit(p: Plan, m: Member, m': Member, index: nat, rows: seq<SourceRow>)
    requires SamePlace(m, m') && AllFit(p, m, index, rows)
    ensures AllFit(p, m', index, rows)
  {
    assert ChunkAt(p.def, p.contract, m', index) == ChunkAt(p.def, p.contract, m, index);
  }

  /** From every reachable state a member that nothing stopped can be completed with any rows that fit. */
  lemma MemberCanComplete(p: Plan, s: System, events: seq<Event>, key: string, rest: seq<seq<SourceRow>>)
    requires Created(p, s) && Open(p, Run(p, s, events), key)
    requires var r := Run(p, s, events);
             && |r.executor.fetched[key]| + |rest| == r.load.members[key].expected > 0
             && forall n: nat | n < |rest| :: AllFit(p, r.load.members[key], |r.executor.fetched[key]| + n, rest[n])
    ensures var r, r' := Run(p, s, events), Run(p, s, events + Staging(key, rest) + [EFinalize(key, true)]);
            && key in r'.load.members && r'.load.members[key].status == MemberSuccess
            && r'.executor.fetched == r.executor.fetched[key := r.executor.fetched[key] + rest]
            && r'.executor.stopped == r.executor.stopped && !r'.load.published
            && r'.load.members.Keys == r.load.members.Keys
            && (forall k <- r.load.members | k != key :: r'.load.members[k] == r.load.members[k])
  {
    hide Run, Step, Created, AllFit, ContractOk;
    StagesRest(p, s, events, key, rest);
    var staged := events + Staging(key, rest);
    RunMore(p, s, staged, EFinalize(key, true));
    FinalizesExactly(p, s, staged, Run(p, s, staged), key);
  }
}
