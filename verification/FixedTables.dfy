/**
 The staging table of a load when others touch it too: terminal loads are cleaned, rows may be damaged. What the load
 and its executor recorded does not depend on it, which is why promotion can tell.
*/
module FixedTables {
  import opened Options
  import opened Calendar
  import opened Chunks
  import opened Framing
  import opened FixedStaging
  import opened FixedRuns

  /** The staging table as the stage transactions alone would have left it. */
  function Untouched(p: Plan, s: System): map<string, seq<StagedRow>> {
    map key | key in s.load.members ::
      if key in s.executor.fetched then RowsFetched(p, s.load.members[key], s.executor.fetched[key]) else []
  }

  function RowsFetched(p: Plan, m: Member, fetched: seq<seq<SourceRow>>): seq<StagedRow> {
    if Planned(p.def, p.contract, m) && |fetched| <= m.expected then AllStaged(p, m, fetched) else []
  }

  function Restored(p: Plan, s: System): System {
    s.(load := s.load.(staging := Untouched(p, s)))
  }

  /** The load and its executor are in order, whatever became of the staging table. */
  ghost predicate RecordsOk(p: Plan, s: System) {
    && s.load.staging.Keys == s.load.members.Keys == s.executor.fetched.Keys
    && Inv(p, Restored(p, s))
  }

  lemma RestoredIsSame(p: Plan, s: System)
    requires Inv(p, s)
    ensures Restored(p, s) == s && RecordsOk(p, s)
  {
    hide MemberInv, RowsFetched;
    forall key <- s.load.members ensures Untouched(p, s)[key] == s.load.staging[key] {
      MemberRows(p, s.load, key, s.load.members[key], s.executor.fetched[key]);
    }
    assert Untouched(p, s) == s.load.staging;
  }

  lemma MemberRows(p: Plan, s: LoadState, key: string, m: Member, fetched: seq<seq<SourceRow>>)
    requires MemberInv(p, s, key, m, fetched)
    ensures key in s.staging && s.staging[key] == RowsFetched(p, m, fetched)
  {
    hide SegmentKept, AllStaged, Flatten, Frames;
  }

  /** Two systems that differ in their staging rows alone. */
  predicate Alike(s: System, t: System) {
    && s.load.staging.Keys == t.load.staging.Keys
    && t == s.(load := s.load.(staging := t.load.staging))
  }

  predicate IsSuffix(a: seq<StagedRow>, b: seq<StagedRow>) {
    |a| <= |b| && a == b[|b| - |a|..]
  }

  /** Steps do not read the staging table, and add the same rows at its end. */
  lemma StepsAlike(p: Plan, s: System, t: System, e: Event)
    requires Alike(s, t)
    ensures Alike(Step(p, s, e), Step(p, t, e))
    ensures (forall k <- s.load.staging :: IsSuffix(s.load.staging[k], t.load.staging[k])) ==>
              forall k <- Step(p, s, e).load.staging :: IsSuffix(Step(p, s, e).load.staging[k], Step(p, t, e).load.staging[k])
  {
    hide Planned, RowFits, ContractOk, SegmentFits, Flatten, Frames, SourceChecksums, Staged, SegmentOf, Stored;
    if e.key in s.load.members && e.key in s.executor.fetched && e.EStage? { StagesAlike(p, s, t, e.key, e.rows, e.heard); }
  }

  lemma StagesAlike(p: Plan, s: System, t: System, key: string, rows: seq<SourceRow>, heard: bool)
    requires Alike(s, t) && key in s.load.members && key in s.executor.fetched
    ensures Alike(StageStep(p, s, key, rows, heard), StageStep(p, t, key, rows, heard))
    ensures var s', t' := StageStep(p, s, key, rows, heard), StageStep(p, t, key, rows, heard);
            (forall k <- s.load.staging :: IsSuffix(s.load.staging[k], t.load.staging[k])) ==>
              forall k <- s'.load.staging :: IsSuffix(s'.load.staging[k], t'.load.staging[k])
  {
    hide Planned, RowFits, ContractOk, SegmentFits, Staged, SegmentOf, Stored, CoverageOf;
    var s' := StageStep(p, s, key, rows, heard);
    if s'.load != s.load {
      var m, n := s.load.members[key], |s.executor.fetched[key]|;
      var more := Staged(p.def, n, SegmentOf(p, m, n, rows).asOf, m.count + 1, rows);
      StagedRows(p, s, key, rows, heard);
      StagedRows(p, t, key, rows, heard);
      if IsSuffix(s.load.staging[key], t.load.staging[key]) {
        SuffixExtends(s.load.staging[key], t.load.staging[key], more);
      }
    }
  }

  lemma StagedRows(p: Plan, s: System, key: string, rows: seq<SourceRow>, heard: bool)
    requires key in s.load.members && key in s.executor.fetched && StageStep(p, s, key, rows, heard).load != s.load
    ensures Planned(p.def, p.contract, s.load.members[key]) && |s.executor.fetched[key]| < s.load.members[key].expected
    ensures key in s.load.staging
    ensures var m, n := s.load.members[key], |s.executor.fetched[key]|;
            StageStep(p, s, key, rows, heard).load.staging == s.load.staging[key := s.load.staging[key]
              + Staged(p.def, n, SegmentOf(p, m, n, rows).asOf, m.count + 1, rows)]
  {
    hide Planned, RowFits, ContractOk, SegmentFits, Staged, Stored;
  }

  lemma SuffixExtends(a: seq<StagedRow>, b: seq<StagedRow>, more: seq<StagedRow>)
    requires IsSuffix(a, b)
    ensures IsSuffix(a + more, b + more)
  {
  }

  lemma StepKeepsRecords(p: Plan, s: System, e: Event)
    requires RecordsOk(p, s)
    ensures RecordsOk(p, Step(p, s, e))
    ensures (forall k <- s.load.staging :: IsSuffix(s.load.staging[k], Untouched(p, s)[k])) ==>
              forall k <- Step(p, s, e).load.staging ::
                IsSuffix(Step(p, s, e).load.staging[k], Untouched(p, Step(p, s, e))[k])
  {
    hide Inv, Step, IsSuffix;
    var t := Restored(p, s);
    StepsAlike(p, s, t, e);
    StepKeeps(p, t, e);
    RestoredIsSame(p, Step(p, t, e));
    SameRestored(p, Step(p, s, e), Step(p, t, e));
  }

  lemma SameRestored(p: Plan, s: System, t: System)
    requires Alike(s, t)
    ensures Restored(p, s) == Restored(p, t)
  {
    hide RowsFetched;
  }

  /** Acceptance of a load in order proves that the table holds the fetched checksums, and all segments were fetched. */
  lemma AcceptedRecords(p: Plan, s: System, found: map<string, seq<StagedRow>>, key: string)
    requires RecordsOk(p, s) && Injective(p.h) && Accepts(p.h, p.def, p.contract, s.load.(staging := found))
    requires key in s.load.members && Short(Checksums(found[key]), LENGTH_WIDTH)
    ensures Checksums(found[key]) == SourceChecksums(Flatten(s.executor.fetched[key]))
    ensures |s.executor.fetched[key]| == s.load.members[key].expected
  {
    hide Inv, Accepts, Short, Checksums, SourceChecksums, Flatten, Untouched;
    assert Restored(p, s).load.(staging := found) == s.load.(staging := found);
    AcceptedChecksums(p, Restored(p, s), found, key);
  }

  /** An accepted table that lost rows at most is the untouched one. */
  lemma AcceptedUntouched(p: Plan, s: System, found: map<string, seq<StagedRow>>, key: string)
    requires RecordsOk(p, s) && Accepts(p.h, p.def, p.contract, s.load.(staging := found))
    requires key in s.load.members && IsSuffix(found[key], Untouched(p, s)[key])
    ensures found[key] == Untouched(p, s)[key]
  {
    hide SegmentsOk, ContractOk, ShapeOk, Planned, AllStaged, SegmentKept, Frames, Flatten;
    var t := Restored(p, s);
    MemberRows(p, t.load, key, t.load.members[key], t.executor.fetched[key]);
    assert MemberInv(p, t.load, key, t.load.members[key], t.executor.fetched[key]);
    assert MemberRowsOk(p.h, p.def, s.load.(staging := found), key);
  }
}
