/**
 Runs of a Fixed load's executor, and what promotion's acceptance proves about the staged rows: each member's are what
 the executor fetched, chunk by chunk and variant by variant, each once and in order.
*/
module FixedRuns {
  import opened Options
  import opened Calendar
  import opened Chunks
  import opened Framing
  import opened FixedStaging

  /** What one executor does to one load. `heard` is false when a commit's acknowledgement is lost. */
  datatype Event =
    | EStage(key: string, rows: seq<SourceRow>, heard: bool)
    | EFinalize(key: string, heard: bool)

  /** `fetched` lists the row sets of the segments each member staged; a stopped member is not worked on any more. */
  datatype Executor = Executor(fetched: map<string, seq<seq<SourceRow>>>, stopped: set<string>)
  datatype System = System(load: LoadState, executor: Executor)

  datatype Plan = Plan(h: Hash, def: Definition, locations: bool, contract: Contract)

  function Flatten(fetched: seq<seq<SourceRow>>): seq<SourceRow> {
    if fetched == [] then [] else Flatten(fetched[..|fetched| - 1]) + fetched[|fetched| - 1]
  }

  function DescriptorOf(m: Member): Descriptor { Descriptor(m.from, m.to, m.location, m.account) }

  function SegmentOf(p: Plan, m: Member, index: nat, rows: seq<SourceRow>): Segment
    requires Planned(p.def, p.contract, m) && index < m.expected
  {
    var chunk := ChunkAt(p.def, p.contract, m, index);
    Segment(index, chunk.from, chunk.to, chunk.to, Variant(p.contract, index), rows)
  }

  function Stop(s: System, key: string): System {
    s.(executor := s.executor.(stopped := s.executor.stopped + {key}))
  }

  function StageStep(p: Plan, s: System, key: string, rows: seq<SourceRow>, heard: bool): System
    requires key in s.load.members && key in s.executor.fetched
  {
    var m := s.load.members[key];
    var n := |s.executor.fetched[key]|;
    if key in s.executor.stopped || !Planned(p.def, p.contract, m) || n >= m.expected then s
    else
      var r := Stage(p.h, p.def, p.locations, p.contract, s.load, key, DescriptorOf(m), SegmentOf(p, m, n, rows));
      if r.None? then Stop(s, key)
      else
        var s' := System(r.value, s.executor.(fetched := s.executor.fetched[key := s.executor.fetched[key] + [rows]]));
        if heard then s' else Stop(s', key)
  }

  function FinalizeStep(p: Plan, s: System, key: string, heard: bool): System
    requires key in s.load.members && key in s.executor.fetched
  {
    var rows := Flatten(s.executor.fetched[key]);
    if key in s.executor.stopped then s
    else
      var r := Finalize(p.def, p.contract, s.load, key, |s.executor.fetched[key]|, |rows|,
                        p.h(Frames(SourceChecksums(rows), LENGTH_WIDTH)));
      if r.None? then Stop(s, key)
      else if heard then s.(load := r.value)
      else Stop(s.(load := r.value), key)
  }

  function Step(p: Plan, s: System, e: Event): System {
    if e.key !in s.load.members || e.key !in s.executor.fetched then s
    else match e
      case EStage(key, rows, heard) => StageStep(p, s, key, rows, heard)
      case EFinalize(key, heard) => FinalizeStep(p, s, key, heard)
  }

  function Run(p: Plan, s: System, events: seq<Event>): System {
    if events == [] then s else Step(p, Run(p, s, events[..|events| - 1]), events[|events| - 1])
  }

  /** A load as it is created: every member planned, nothing staged. */
  ghost predicate Created(p: Plan, s: System) {
    && |s.load.members| == p.contract.expectedMembers
    && s.load.segments == map[]
    && s.load.staging.Keys == s.load.members.Keys
    && s.executor.fetched.Keys == s.load.members.Keys
    && (forall key <- s.load.members ::
          && Planned(p.def, p.contract, s.load.members[key])
          && s.load.members[key].status == MemberPending
          && s.load.members[key].count == 0
          && s.load.members[key].staged == 0
          && s.load.staging[key] == []
          && s.executor.fetched[key] == [])
  }

  // ---------------------------------------------------------------------------------------------------------
  // The invariant of a member
  // ---------------------------------------------------------------------------------------------------------

  /** The in-order concatenation of the segments' staged rows. */
  function AllStaged(p: Plan, m: Member, fetched: seq<seq<SourceRow>>): (r: seq<StagedRow>)
    requires Planned(p.def, p.contract, m) && |fetched| <= m.expected
  {
    if fetched == [] then []
    else
      var n := |fetched| - 1;
      var before := AllStaged(p, m, fetched[..n]);
      before + Staged(p.def, n, ChunkAt(p.def, p.contract, m, n).to, |before| + 1, fetched[n])
  }

  ghost predicate SegmentKept(p: Plan, s: LoadState, key: string, m: Member, i: nat, rows: seq<SourceRow>)
    requires Planned(p.def, p.contract, m) && i < m.expected
  {
    && SegmentId(key, i) in s.segments
    && s.segments[SegmentId(key, i)] == Stored(p.h, SegmentOf(p, m, i, rows))
    && (forall row <- rows :: RowFits(p.def, p.locations, m, SegmentOf(p, m, i, rows), row))
  }

  ghost predicate MemberInv(p: Plan, s: LoadState, key: string, m: Member, fetched: seq<seq<SourceRow>>) {
    && Planned(p.def, p.contract, m)
    && |fetched| == m.staged <= m.expected
    && key in s.staging
    && s.staging[key] == AllStaged(p, m, fetched)
    && m.count == |s.staging[key]|
    && (forall i: nat | i < m.staged :: SegmentKept(p, s, key, m, i, fetched[i]))
    && (forall i: nat | i >= m.staged :: SegmentId(key, i) !in s.segments)
    && (m.status == MemberSuccess ==>
          && m.staged == m.expected > 0
          && m.checksum == Some(p.h(Frames(SourceChecksums(Flatten(fetched)), LENGTH_WIDTH))))
  }

  ghost predicate Inv(p: Plan, s: System) {
    && |s.load.members| == p.contract.expectedMembers
    && s.load.staging.Keys == s.load.members.Keys == s.executor.fetched.Keys
    && (forall id <- s.load.segments :: id.member in s.load.members)
    && (forall key <- s.load.members :: MemberInv(p, s.load, key, s.load.members[key], s.executor.fetched[key]))
  }

  lemma CreatedInv(p: Plan, s: System)
    requires Created(p, s)
    ensures Inv(p, s)
  {
  }

  lemma {:induction false} FlattenLength(p: Plan, m: Member, fetched: seq<seq<SourceRow>>)
    requires Planned(p.def, p.contract, m) && |fetched| <= m.expected
    ensures |AllStaged(p, m, fetched)| == |Flatten(fetched)|
    ensures Checksums(AllStaged(p, m, fetched)) == SourceChecksums(Flatten(fetched))
  {
    if fetched != [] {
      var n := |fetched| - 1;
      FlattenLength(p, m, fetched[..n]);
      var before := AllStaged(p, m, fetched[..n]);
      var last := Staged(p.def, n, ChunkAt(p.def, p.contract, m, n).to, |before| + 1, fetched[n]);
      assert Checksums(before + last) == Checksums(before) + Checksums(last);
      assert Checksums(last) == SourceChecksums(fetched[n]);
      assert SourceChecksums(Flatten(fetched[..n]) + fetched[n])
          == SourceChecksums(Flatten(fetched[..n])) + SourceChecksums(fetched[n]);
    }
  }

  /** A member other than the one worked on keeps its rows, its segments and its invariant. */
  lemma OtherMember(p: Plan, s: LoadState, s': LoadState, key: string, m: Member, fetched: seq<seq<SourceRow>>)
    requires MemberInv(p, s, key, m, fetched)
    requires key in s'.staging && s'.staging[key] == s.staging[key]
    requires forall i: nat :: SegmentId(key, i) in s'.segments <==> SegmentId(key, i) in s.segments
    requires forall i: nat | SegmentId(key, i) in s.segments ::
               s'.segments[SegmentId(key, i)] == s.segments[SegmentId(key, i)]
    ensures MemberInv(p, s', key, m, fetched)
  {
    forall i: nat | i < m.staged ensures SegmentKept(p, s', key, m, i, fetched[i]) {
      assert SegmentKept(p, s, key, m, i, fetched[i]);
    }
  }

  /** The plan of a member does not depend on how far it is. */
  lemma SamePlan(p: Plan, m: Member, m': Member, fetched: seq<seq<SourceRow>>)
    requires Planned(p.def, p.contract, m) && |fetched| <= m.expected
    requires m'.from == m.from && m'.to == m.to && m'.expected == m.expected
    ensures Planned(p.def, p.contract, m') && AllStaged(p, m', fetched) == AllStaged(p, m, fetched)
  {
    if fetched != [] { SamePlan(p, m, m', fetched[..|fetched| - 1]); }
  }

  lemma StagedMember(p: Plan, s: LoadState, s': LoadState, key: string, fetched: seq<seq<SourceRow>>, rows: seq<SourceRow>)
    requires key in s.members && MemberInv(p, s, key, s.members[key], fetched)
    requires |fetched| < s.members[key].expected
    requires Stage(p.h, p.def, p.locations, p.contract, s, key, DescriptorOf(s.members[key]),
                   SegmentOf(p, s.members[key], |fetched|, rows)) == Some(s')
    ensures MemberInv(p, s', key, s'.members[key], fetched + [rows])
  {
    var m, m' := s.members[key], s'.members[key];
    var all := fetched + [rows];
    assert all[..|all| - 1] == fetched;
    SamePlan(p, m, m', fetched);
    hide Planned, Staged, RowFits, Stored, Frames, ContractOk;
    forall i: nat | i < m'.staged ensures SegmentKept(p, s', key, m', i, all[i]) {
      StagedSegment(p, s, s', key, fetched, rows, i);
    }
  }

  lemma StagedSegment(p: Plan, s: LoadState, s': LoadState, key: string, fetched: seq<seq<SourceRow>>, rows: seq<SourceRow>,
                      i: nat)
    requires key in s.members && MemberInv(p, s, key, s.members[key], fetched)
    requires |fetched| < s.members[key].expected && i <= |fetched|
    requires Stage(p.h, p.def, p.locations, p.contract, s, key, DescriptorOf(s.members[key]),
                   SegmentOf(p, s.members[key], |fetched|, rows)) == Some(s')
    ensures Planned(p.def, p.contract, s'.members[key])
    ensures SegmentKept(p, s', key, s'.members[key], i, (fetched + [rows])[i])
  {
    hide AllStaged, Staged, Stored, ContractOk, SourceChunks;
    var m, m' := s.members[key], s'.members[key];
    if i < m.staged { assert SegmentKept(p, s, key, m, i, fetched[i]); }
    assert RowFitsSame(p, m, m', i, (fetched + [rows])[i]);
  }

  ghost predicate RowFitsSame(p: Plan, m: Member, m': Member, i: nat, rows: seq<SourceRow>)
    requires Planned(p.def, p.contract, m) && Planned(p.def, p.contract, m') && i < m.expected && i < m'.expected
  {
    SegmentOf(p, m, i, rows) == SegmentOf(p, m', i, rows)
  }

  lemma StageKeeps(p: Plan, s: System, key: string, rows: seq<SourceRow>, heard: bool)
    requires Inv(p, s) && key in s.load.members
    ensures Inv(p, StageStep(p, s, key, rows, heard))
  {
    hide MemberInv, Planned, SegmentFits, RowFits, ContractOk, SegmentOf, CanStage, DescriptorOf, Stage;
    var fetched := s.executor.fetched[key];
    assert MemberInv(p, s.load, key, s.load.members[key], fetched);
    var s' := StageStep(p, s, key, rows, heard);
    if s'.executor.fetched[key] == fetched {
      assert |fetched + [rows]| != |fetched|;
    } else {
      StagedOne(p, s, s'.load, key, rows);
    }
  }

  lemma StagedOne(p: Plan, s: System, load: LoadState, key: string, rows: seq<SourceRow>)
    requires Inv(p, s) && key in s.load.members
    requires var m, n := s.load.members[key], |s.executor.fetched[key]|;
             && Planned(p.def, p.contract, m) && n < m.expected
             && Stage(p.h, p.def, p.locations, p.contract, s.load, key, DescriptorOf(m), SegmentOf(p, m, n, rows)) == Some(load)
    ensures Inv(p, System(load, s.executor.(fetched := s.executor.fetched[key := s.executor.fetched[key] + [rows]])))
  {
    hide MemberInv, Planned, ContractOk, SegmentOf, DescriptorOf, Stage, Local;
    var fetched := s.executor.fetched;
    assert MemberInv(p, s.load, key, s.load.members[key], fetched[key]);
    StagedMember(p, s.load, load, key, fetched[key], rows);
    StageIsLocal(p, s.load, load, key, SegmentOf(p, s.load.members[key], |fetched[key]|, rows));
    LocalKeeps(p, s, System(load, s.executor.(fetched := fetched[key := fetched[key] + [rows]])), key);
  }

  /** Nothing but the member worked on changes. */
  ghost predicate Local(s: LoadState, s': LoadState, key: string) {
    && s'.members.Keys == s.members.Keys && |s'.members| == |s.members| && s'.staging.Keys == s.staging.Keys
    && (forall k <- s.members | k != key :: s'.members[k] == s.members[k])
    && (forall k <- s.staging | k != key :: s'.staging[k] == s.staging[k])
    && (forall id: SegmentId | id.member != key :: id in s'.segments <==> id in s.segments)
    && (forall id <- s.segments | id.member != key :: s'.segments[id] == s.segments[id])
    && (forall id <- s'.segments :: id in s.segments || id.member == key)
  }

  lemma StageIsLocal(p: Plan, s: LoadState, s': LoadState, key: string, segment: Segment)
    requires key in s.members && key in s.staging
    requires Stage(p.h, p.def, p.locations, p.contract, s, key, DescriptorOf(s.members[key]), segment) == Some(s')
    ensures Local(s, s', key)
  {
    hide CanStage, Staged, Stored;
    assert |s'.members| == |s'.members.Keys| && |s.members| == |s.members.Keys|;
  }

  /** Work on one member keeps the invariant, once its own is kept. */
  lemma LocalKeeps(p: Plan, s: System, s': System, key: string)
    requires Inv(p, s) && key in s.load.members && Local(s.load, s'.load, key)
    requires s'.executor.fetched.Keys == s.executor.fetched.Keys
    requires forall k <- s.executor.fetched | k != key :: s'.executor.fetched[k] == s.executor.fetched[k]
    requires MemberInv(p, s'.load, key, s'.load.members[key], s'.executor.fetched[key])
    ensures Inv(p, s')
  {
    hide MemberInv, ContractOk;
    forall k <- s'.load.members ensures MemberInv(p, s'.load, k, s'.load.members[k], s'.executor.fetched[k]) {
      if k != key { OtherMember(p, s.load, s'.load, k, s.load.members[k], s.executor.fetched[k]); }
    }
  }

  lemma FinalizeKeeps(p: Plan, s: System, key: string, heard: bool)
    requires Inv(p, s) && key in s.load.members
    ensures Inv(p, FinalizeStep(p, s, key, heard))
  {
    hide MemberInv, Planned, ContractOk, Flatten, Frames, SourceChecksums, Finalize, Local;
    var s' := FinalizeStep(p, s, key, heard);
    assert MemberInv(p, s.load, key, s.load.members[key], s.executor.fetched[key]);
    if s'.load != s.load {
      var fetched := s.executor.fetched[key];
      FinalizedMember(p, s.load, s'.load, key, fetched);
      FinalizeIsLocal(p, s.load, s'.load, key, fetched);
      LocalKeeps(p, s, s', key);
    }
  }

  lemma FinalizeIsLocal(p: Plan, s: LoadState, s': LoadState, key: string, fetched: seq<seq<SourceRow>>)
    requires key in s.members
    requires var rows := Flatten(fetched);
             Finalize(p.def, p.contract, s, key, |fetched|, |rows|, p.h(Frames(SourceChecksums(rows), LENGTH_WIDTH))) == Some(s')
    ensures Local(s, s', key)
  {
    hide Flatten, Frames, SourceChecksums;
    assert |s'.members| == |s'.members.Keys| && |s.members| == |s.members.Keys|;
  }

  lemma FinalizedMember(p: Plan, s: LoadState, s': LoadState, key: string, fetched: seq<seq<SourceRow>>)
    requires key in s.members && MemberInv(p, s, key, s.members[key], fetched)
    requires var rows := Flatten(fetched);
             Finalize(p.def, p.contract, s, key, |fetched|, |rows|, p.h(Frames(SourceChecksums(rows), LENGTH_WIDTH))) == Some(s')
    ensures MemberInv(p, s', key, s'.members[key], fetched)
  {
    hide ContractOk, SourceChunks, Frames;
    var m, m' := s.members[key], s'.members[key];
    SamePlan(p, m, m', fetched);
    forall i: nat | i < m'.staged ensures SegmentKept(p, s', key, m', i, fetched[i]) {
      assert SegmentKept(p, s, key, m, i, fetched[i]);
      assert RowFitsSame(p, m, m', i, fetched[i]);
    }
  }

  lemma {:induction false} RunKeeps(p: Plan, s: System, events: seq<Event>)
    requires Created(p, s)
    ensures Inv(p, Run(p, s, events))
  {
    hide Inv, StageStep, FinalizeStep, Created;
    if events == [] {
      CreatedInv(p, s);
    } else {
      var before := events[..|events| - 1];
      RunKeeps(p, s, before);
      StepKeeps(p, Run(p, s, before), events[|events| - 1]);
    }
  }

  lemma StepKeeps(p: Plan, s: System, e: Event)
    requires Inv(p, s)
    ensures Inv(p, Step(p, s, e))
  {
    hide MemberInv, StageStep, FinalizeStep;
    if e.key in s.load.members {
      match e
      case EStage(key, rows, heard) => StageKeeps(p, s, key, rows, heard);
      case EFinalize(key, heard) => FinalizeKeeps(p, s, key, heard);
    }
  }

  // ---------------------------------------------------------------------------------------------------------
  // Promotion
  // ---------------------------------------------------------------------------------------------------------

  lemma {:induction false} OfSegmentConcat(a: seq<StagedRow>, b: seq<StagedRow>, i: nat)
    ensures OfSegment(a + b, i) == OfSegment(a, i) + OfSegment(b, i)
  {
    if b == [] {
      assert a + b == a;
    } else {
      var n := |b| - 1;
      assert (a + b)[..|a + b| - 1] == a + b[..n];
      OfSegmentConcat(a, b[..n], i);
    }
  }

  lemma {:induction false} OfOneSegment(rows: seq<StagedRow>, index: nat, i: nat)
    requires forall row <- rows :: row.index == index
    ensures OfSegment(rows, i) == if i == index then rows else []
  {
    if rows != [] { OfOneSegment(rows[..|rows| - 1], index, i); }
  }

  /** Selecting a segment's rows gives back what was staged for it. */
  lemma {:induction false} SegmentRows(p: Plan, m: Member, fetched: seq<seq<SourceRow>>, i: nat)
    requires Planned(p.def, p.contract, m) && |fetched| <= m.expected
    ensures Checksums(OfSegment(AllStaged(p, m, fetched), i)) == if i < |fetched| then SourceChecksums(fetched[i]) else []
    ensures |OfSegment(AllStaged(p, m, fetched), i)| == if i < |fetched| then |fetched[i]| else 0
  {
    hide Planned, ChunkAt, OfSegment, CoverageOf;
    if fetched == [] {
      NoSegment(i);
    } else {
      var n := |fetched| - 1;
      SegmentRows(p, m, fetched[..n], i);
      var before := AllStaged(p, m, fetched[..n]);
      var last := Staged(p.def, n, ChunkAt(p.def, p.contract, m, n).to, |before| + 1, fetched[n]);
      OfSegmentConcat(before, last, i);
      OfOneSegment(last, n, i);
      assert Checksums(last) == SourceChecksums(fetched[n]);
      if i != n {
        assert OfSegment(before, i) + [] == OfSegment(before, i);
      } else {
        assert OfSegment(before, i) == [] && [] + last == last;
      }
    }
  }

  lemma NoSegment(i: nat)
    ensures OfSegment([], i) == [] && Checksums([]) == []
  {
  }

  lemma {:induction false} Totals(p: Plan, s: LoadState, key: string, m: Member, fetched: seq<seq<SourceRow>>)
    requires Planned(p.def, p.contract, m) && |fetched| <= m.expected
    requires forall i: nat | i < |fetched| :: SegmentKept(p, s, key, m, i, fetched[i])
    ensures RowTotal(s, key, |fetched|) == |AllStaged(p, m, fetched)|
  {
    if fetched != [] {
      var n := |fetched| - 1;
      forall i: nat | i < n ensures SegmentKept(p, s, key, m, i, fetched[..n][i]) {
        assert SegmentKept(p, s, key, m, i, fetched[i]);
      }
      Totals(p, s, key, m, fetched[..n]);
      assert SegmentKept(p, s, key, m, n, fetched[n]);
    }
  }

  /** Every staged row belongs to a kept segment and to its dates. */
  lemma {:induction false} RowsInSegments(p: Plan, s: LoadState, key: string, m: Member, fetched: seq<seq<SourceRow>>)
    requires Planned(p.def, p.contract, m) && |fetched| <= m.expected
    requires forall i: nat | i < |fetched| :: SegmentKept(p, s, key, m, i, fetched[i])
    ensures forall row <- AllStaged(p, m, fetched) :: StagedRowOk(p.def, s, key, row)
  {
    if fetched != [] {
      var n := |fetched| - 1;
      forall i: nat | i < n ensures SegmentKept(p, s, key, m, i, fetched[..n][i]) {
        assert SegmentKept(p, s, key, m, i, fetched[i]);
      }
      RowsInSegments(p, s, key, m, fetched[..n]);
      assert SegmentKept(p, s, key, m, n, fetched[n]);
      var before := AllStaged(p, m, fetched[..n]);
      var last := Staged(p.def, n, ChunkAt(p.def, p.contract, m, n).to, |before| + 1, fetched[n]);
      forall row <- last ensures StagedRowOk(p.def, s, key, row) {
        var k :| 0 <= k < |last| && last[k] == row;
        assert RowFits(p.def, p.locations, m, SegmentOf(p, m, n, fetched[n]), fetched[n][k]);
      }
    }
  }

  lemma AcceptedSegments(p: Plan, s: LoadState, key: string, fetched: seq<seq<SourceRow>>)
    requires key in s.members && MemberInv(p, s, key, s.members[key], fetched)
    requires s.members[key].status == MemberSuccess
    ensures MemberSegmentsOk(p.def, p.contract, s, key)
  {
    hide SourceChunks, Frames, AllStaged, Flatten, Partitions, Variant;
    var m := s.members[key];
    Totals(p, s, key, m, fetched);
    forall i: nat | i < m.expected
      ensures SegmentId(key, i) in s.segments
      ensures StoredFits(p.def, p.contract, m, i, s.segments[SegmentId(key, i)])
    {
      assert SegmentKept(p, s, key, m, i, fetched[i]);
    }
  }

  lemma AcceptedRows(p: Plan, s: LoadState, key: string, fetched: seq<seq<SourceRow>>)
    requires key in s.members && MemberInv(p, s, key, s.members[key], fetched)
    requires s.members[key].status == MemberSuccess
    ensures MemberRowsOk(p.h, p.def, s, key)
  {
    hide Planned, Frames, AllStaged, Flatten, OfSegment, SourceChecksums, Checksums, StagedRowOk;
    var m := s.members[key];
    RowsInSegments(p, s, key, m, fetched);
    FlattenLength(p, m, fetched);
    forall i: nat | SegmentId(key, i) in s.segments
      ensures |OfSegment(s.staging[key], i)| == s.segments[SegmentId(key, i)].count
      ensures p.h(Frames(Checksums(OfSegment(s.staging[key], i)), LENGTH_WIDTH)) == s.segments[SegmentId(key, i)].checksum
    {
      assert SegmentKept(p, s, key, m, i, fetched[i]);
      SegmentRows(p, m, fetched, i);
    }
  }

  /** What the plan fixes of a member. */
  predicate SameFrame(m: Member, m': Member) {
    && m'.from == m.from && m'.to == m.to
    && m'.location == m.location && m'.account == m.account && m'.expected == m.expected
  }

  ghost predicate SameFrames(a: map<string, Member>, b: map<string, Member>) {
    a.Keys == b.Keys && forall key <- a :: SameFrame(a[key], b[key])
  }

  lemma {:induction false} RunKeepsFrames(p: Plan, s: System, events: seq<Event>)
    ensures SameFrames(s.load.members, Run(p, s, events).load.members)
  {
    hide Step;
    if events != [] {
      var before := events[..|events| - 1];
      RunKeepsFrames(p, s, before);
      StepKeepsFrames(p, Run(p, s, before), events[|events| - 1]);
    }
  }

  lemma StepKeepsFrames(p: Plan, s: System, e: Event)
    ensures SameFrames(s.load.members, Step(p, s, e).load.members)
  {
    hide CanStage, Planned, Flatten, Frames, SourceChecksums, Stored, Staged, SegmentOf, DescriptorOf, ContractOk;
  }

  lemma SameShape(def: Definition, load: Contract, a: map<string, Member>, b: map<string, Member>)
    requires SameFrames(a, b) && ShapeOk(def, load, a)
    ensures ShapeOk(def, load, b)
  {
    hide Ordinal;
    if def.snapshotDate {
      forall key <- b, day: nat {:trigger Snapshotted(b, b[key].location, day)}
        | Ordinal(load.from) <= day <= Ordinal(load.to)
        ensures Snapshotted(b, b[key].location, day)
      {
        assert Snapshotted(a, a[key].location, day);
      }
    }
  }

  /** Promotion accepts a load exactly when its contract and its plan's shape are right and every member was finalized. */
  lemma AcceptsWhenComplete(p: Plan, s: System, events: seq<Event>, r: LoadState)
    requires Created(p, s) && r == Run(p, s, events).load
    ensures Accepts(p.h, p.def, p.contract, r)
       <==> ContractOk(p.contract, p.def) && ShapeOk(p.def, p.contract, s.load.members)
            && (forall key <- r.members :: r.members[key].status == MemberSuccess)
  {
    hide Created, Run, MemberInv, MemberSegmentsOk, MemberRowsOk, ContractOk, ShapeOk;
    RunKeeps(p, s, events);
    RunKeepsFrames(p, s, events);
    if ShapeOk(p.def, p.contract, s.load.members) { SameShape(p.def, p.contract, s.load.members, r.members); }
    if ShapeOk(p.def, p.contract, r.members) { SameShape(p.def, p.contract, r.members, s.load.members); }
    var fetched := Run(p, s, events).executor.fetched;
    if forall key <- r.members :: r.members[key].status == MemberSuccess {
      forall key <- r.members ensures MemberSegmentsOk(p.def, p.contract, r, key) && MemberRowsOk(p.h, p.def, r, key) {
        AcceptedSegments(p, r, key, fetched[key]);
        AcceptedRows(p, r, key, fetched[key]);
      }
    }
  }

  /**
   An accepted member's staged rows are the in-order concatenation of all its chunk and variant segments, each once,
   with exactly the rows the executor fetched for them.
  */
  lemma AcceptedIsFetched(p: Plan, s: System, events: seq<Event>, r: System, key: string, m: Member,
                          fetched: seq<seq<SourceRow>>)
    requires Created(p, s) && r == Run(p, s, events) && Accepts(p.h, p.def, p.contract, r.load)
    requires key in r.load.members && key in r.executor.fetched && key in r.load.staging
    requires m == r.load.members[key] && fetched == r.executor.fetched[key]
    ensures Planned(p.def, p.contract, m)
    ensures |fetched| == m.expected == |SourceChunks(p.def, m.from, m.to).value| * Partitions(p.contract)
    ensures r.load.staging[key] == AllStaged(p, m, fetched)
    ensures Checksums(r.load.staging[key]) == SourceChecksums(Flatten(fetched))
  {
    hide Created, Run, SegmentsOk, ContractOk, SourceChunks, AllStaged, SegmentKept;
    RunKeeps(p, s, events);
    assert MemberInv(p, r.load, key, m, fetched);
    FlattenLength(p, m, fetched);
  }

  /** Whatever the staging table holds by then, acceptance proves that it holds the fetched checksums in order. */
  lemma AcceptanceDetects(p: Plan, s: System, events: seq<Event>, r: System, found: map<string, seq<StagedRow>>, key: string)
    requires Created(p, s) && Injective(p.h) && r == Run(p, s, events)
    requires Accepts(p.h, p.def, p.contract, r.load.(staging := found))
    requires key in r.load.members && key in found && key in r.executor.fetched
    requires Short(Checksums(found[key]), LENGTH_WIDTH)
    ensures Checksums(found[key]) == SourceChecksums(Flatten(r.executor.fetched[key]))
  {
    hide Created, Run, Inv, Accepts;
    RunKeeps(p, s, events);
    AcceptedChecksums(p, r, found, key);
  }

  lemma AcceptedChecksums(p: Plan, s: System, found: map<string, seq<StagedRow>>, key: string)
    requires Inv(p, s) && Injective(p.h) && Accepts(p.h, p.def, p.contract, s.load.(staging := found))
    requires key in s.load.members && Short(Checksums(found[key]), LENGTH_WIDTH)
    ensures Checksums(found[key]) == SourceChecksums(Flatten(s.executor.fetched[key]))
    ensures |s.executor.fetched[key]| == s.load.members[key].expected
  {
    hide SegmentsOk, ContractOk, Planned, AllStaged, SegmentKept, Frames, Checksums, SourceChecksums, Short;
    var m, fetched := s.load.members[key], s.executor.fetched[key];
    assert MemberInv(p, s.load, key, m, fetched);
    assert MemberRowsOk(p.h, p.def, s.load.(staging := found), key);
    FetchedShort(p, s.load, key, m, fetched);
    FramesInjective(Checksums(found[key]), SourceChecksums(Flatten(fetched)), LENGTH_WIDTH);
  }

  lemma {:induction false} FetchedShort(p: Plan, s: LoadState, key: string, m: Member, fetched: seq<seq<SourceRow>>)
    requires Planned(p.def, p.contract, m) && |fetched| <= m.expected
    requires forall i: nat | i < |fetched| :: SegmentKept(p, s, key, m, i, fetched[i])
    ensures Short(SourceChecksums(Flatten(fetched)), LENGTH_WIDTH)
  {
    hide Planned, SegmentKept, Power256;
    if fetched == [] {
      assert SourceChecksums([]) == [];
    } else {
      hide SourceChecksums;
      var n := |fetched| - 1;
      forall i: nat | i < n ensures SegmentKept(p, s, key, m, i, fetched[..n][i]) {
        assert SegmentKept(p, s, key, m, i, fetched[i]);
      }
      FetchedShort(p, s, key, m, fetched[..n]);
      assert SegmentKept(p, s, key, m, n, fetched[n]);
      LongEnough(p, s, key, m, n, fetched[n]);
      SourceChecksumsConcat(Flatten(fetched[..n]), fetched[n]);
    }
  }

  lemma SourceChecksumsConcat(a: seq<SourceRow>, b: seq<SourceRow>)
    ensures SourceChecksums(a + b) == SourceChecksums(a) + SourceChecksums(b)
  {
  }

  lemma LongEnough(p: Plan, s: LoadState, key: string, m: Member, n: nat, rows: seq<SourceRow>)
    requires Planned(p.def, p.contract, m) && n < m.expected && SegmentKept(p, s, key, m, n, rows)
    ensures Short(SourceChecksums(rows), LENGTH_WIDTH)
  {
    assert Power256(4) == 256 * 256 * 256 * 256;
    forall x <- SourceChecksums(rows) ensures |x| < Power256(LENGTH_WIDTH) {
      var k :| 0 <= k < |rows| && rows[k].checksum == x;
      assert RowFits(p.def, p.locations, m, SegmentOf(p, m, n, rows), rows[k]);
    }
  }

  /** A row a step adds to the staging table comes from a source row that fits. */
  lemma StagedAreSources(p: Plan, s: System, e: Event, key: string, row: StagedRow)
    requires var staging := Step(p, s, e).load.staging;
             && key in staging && row in staging[key] && !(key in s.load.staging && row in s.load.staging[key])
    ensures |row.source.checksum| == ROW_CHECKSUM_LENGTH
  {
    hide Planned, ContractOk, SegmentFits, Flatten, Frames, SourceChecksums, Stored, CoverageFits, CoverageOf;
    if e.EStage? && e.key in s.load.members && e.key in s.executor.fetched {
      var m, n := s.load.members[e.key], |s.executor.fetched[e.key]|;
      var segment := SegmentOf(p, m, n, e.rows);
      var more := Staged(p.def, n, segment.asOf, m.count + 1, e.rows);
      var k :| 0 <= k < |more| && more[k] == row;
      assert RowFits(p.def, p.locations, m, segment, e.rows[k]);
    }
  }

  /** Every row of an accepted date-addressable load has a business date within the load. */
  lemma AcceptedCoverage(p: Plan, s: LoadState, key: string, row: StagedRow)
    requires Accepts(p.h, p.def, p.contract, s) && p.def.publication == DateAddressable
    requires key in s.members && row in s.staging[key]
    ensures row.coverage.Some? && Ordinal(p.contract.from) <= Ordinal(row.coverage.value) <= Ordinal(p.contract.to)
  {
    hide Ordinal, ContractOk, StoredFits, OfSegment, Frames, RowTotal, CoverageOf, SnapshotsOk;
    var m := s.members[key];
    assert MemberRowsOk(p.h, p.def, s, key) && MemberSegmentsOk(p.def, p.contract, s, key);
    assert StagedRowOk(p.def, s, key, row) && InLoad(p.contract, m);
    StoredInMember(p.def, p.contract, m, row.index, s.segments[SegmentId(key, row.index)]);
  }

  lemma StoredInMember(def: Definition, load: Contract, m: Member, index: nat, stored: StoredSegment)
    requires StoredFits(def, load, m, index, stored)
    ensures Ordinal(m.from) <= Ordinal(stored.from) && Ordinal(stored.to) <= Ordinal(m.to)
  {
    hide Ordinal, SourceChunks, Partitions, Variant;
    IndexInChunks(index, |SourceChunks(def, m.from, m.to).value|, Partitions(load));
    ChunkInMember(def, m.from, m.to, index / Partitions(load));
  }

  lemma ChunkInMember(def: Definition, from: CalendarDate, to: CalendarDate, k: nat)
    requires InRange(from) && InRange(to) && SourceChunks(def, from, to).Some? && k < |SourceChunks(def, from, to).value|
    ensures var chunk := SourceChunks(def, from, to).value[k];
            Ordinal(from) <= Ordinal(chunk.from) && Ordinal(chunk.to) <= Ordinal(to)
  {
    hide Ordinal, SourceChunks, Span, Tiles, IsCivil;
    SourceChunksTile(def, from, to);
    ChunkInRange(SourceChunks(def, from, to).value, from, to, Span(def, from, to), k);
  }

  lemma {:induction false} ChunkInRange(chunks: seq<DateChunk>, from: CalendarDate, to: CalendarDate, days: nat, k: nat)
    requires Tiles(chunks, from, to, days) && k < |chunks|
    ensures Ordinal(from) <= Ordinal(chunks[k].from) && Ordinal(chunks[k].to) <= Ordinal(to)
  {
    hide Ordinal, IsCivil;
    if k > 0 { LaterEnds(chunks, from, to, days, k); }
    EarlierEnds(chunks, from, to, days, k);
  }

  lemma {:induction false} EarlierEnds(chunks: seq<DateChunk>, from: CalendarDate, to: CalendarDate, days: nat, k: nat)
    requires Tiles(chunks, from, to, days) && k < |chunks|
    ensures Ordinal(chunks[k].to) <= Ordinal(to)
    decreases |chunks| - k
  {
    hide Ordinal, IsCivil;
    if k + 1 < |chunks| {
      EarlierEnds(chunks, from, to, days, k + 1);
      assert Meets(chunks, k, days) && Bounded(chunks[k + 1], days);
    }
  }
}
