/** The ledger of published Fixed loads and the final rows. */
module FixedLedger {
  // The ledger names, for each date or interval, the load whose rows, as staged when it was promoted, are the final
  // rows there. Loads are staged, cleaned, damaged and promoted in any order.

  import opened Options
  import opened Calendar
  import opened Chunks
  import opened Framing
  import opened FixedStaging
  import opened FixedTables
  import R = FixedRuns
  import V = FixedValidation

  type LoadId = nat

  /**
   What one ledger entry covers: a date (by its day number), or the exact interval of an interval result. A row without
   a date is on no day.
  */
  datatype Slot = Day(day: nat) | Interval(from: nat, to: nat) | NoDay
  datatype FinalRow = FinalRow(load: LoadId, slot: Slot, row: StagedRow)

  /** One report job: its hash, its definition, and whether its rows name their location. */
  datatype Job = Job(h: Hash, def: Definition, locations: bool)

  /** A load with its members in the order the queries return them, its rows and its executor. */
  datatype Load = Load(contract: Contract, keys: seq<string>, system: R.System)

  /**
   The tables of one job. `promoted` remembers the staging rows each published load had when it was promoted, and
   `corrupted` the loads whose staging rows were damaged.
  */
  datatype State = State(
    loads: map<LoadId, Load>,
    ledger: map<Slot, LoadId>,
    final: seq<FinalRow>,
    promoted: map<LoadId, map<string, seq<StagedRow>>>,
    corrupted: set<LoadId>,
    next: LoadId)

  /** A fence says whether the load is the run's, and whether the run may now finish with a success. */
  datatype Fence = Unfenced | Fenced(mine: bool, finishes: bool)

  datatype Outcome = Published | Replayed | Stale | Rejected | NotFinished

  function PlanOf(job: Job, load: Load): R.Plan { R.Plan(job.h, job.def, job.locations, load.contract) }

  function Slots(mode: PublicationMode, from: nat, to: nat): set<Slot> {
    match mode
    case DateAddressable => set d: nat | from <= d <= to :: Day(d)
    case IntervalResult => {Interval(from, to)}
  }

  function SlotsOf(job: Job, load: Load): set<Slot> {
    Slots(job.def.publication, Ordinal(load.contract.from), Ordinal(load.contract.to))
  }

  function SlotOf(job: Job, load: Load, row: StagedRow): Slot {
    match job.def.publication
    case DateAddressable => if row.coverage.Some? then Day(Ordinal(row.coverage.value)) else NoDay
    case IntervalResult => Interval(Ordinal(load.contract.from), Ordinal(load.contract.to))
  }

  /** The rows of one slot, in table order. */
  function On(rows: seq<FinalRow>, slot: Slot): seq<FinalRow> {
    if rows == [] then []
    else
      var last := rows[|rows| - 1];
      On(rows[..|rows| - 1], slot) + (if last.slot == slot then [last] else [])
  }

  function Outside(rows: seq<FinalRow>, slots: set<Slot>): seq<FinalRow> {
    if rows == [] then []
    else
      var last := rows[|rows| - 1];
      Outside(rows[..|rows| - 1], slots) + (if last.slot in slots then [] else [last])
  }

  /** The staged rows member by member. */
  function Collected(keys: seq<string>, staging: map<string, seq<StagedRow>>): seq<StagedRow> {
    if keys == [] then []
    else
      var last := keys[|keys| - 1];
      Collected(keys[..|keys| - 1], staging) + (if last in staging then staging[last] else [])
  }

  /** The final rows a load's staging rows become. */
  function Rows(job: Job, id: LoadId, load: Load, staging: map<string, seq<StagedRow>>): (r: seq<FinalRow>)
    ensures |r| == |Collected(load.keys, staging)|
  {
    var rows := Collected(load.keys, staging);
    seq(|rows|, n requires 0 <= n < |rows| => FinalRow(id, SlotOf(job, load, rows[n]), rows[n]))
  }

  // ---------------------------------------------------------------------------------------------------------
  // Transactions
  // ---------------------------------------------------------------------------------------------------------

  predicate IsPublished(load: Load) { load.system.load.published }

  /** Every member is there and finalized, under a contract that matches the definition. */
  predicate IsComplete(job: Job, load: Load) {
    && ContractOk(load.contract, job.def)
    && |load.system.load.members| == load.contract.expectedMembers
    && (forall key <- load.system.load.members :: load.system.load.members[key].status == MemberSuccess)
  }

  predicate IsStale(job: Job, s: State, id: LoadId)
    requires id in s.loads
  {
    exists slot | slot in SlotsOf(job, s.loads[id]) :: slot in s.ledger && s.ledger[slot] > id
  }

  predicate IsReplay(job: Job, s: State, id: LoadId)
    requires id in s.loads
  {
    && IsPublished(s.loads[id])
    && (forall slot | slot in SlotsOf(job, s.loads[id]) :: slot in s.ledger && s.ledger[slot] == id)
  }

  /** The comparison of segments, shape and staging rows with what was recorded. */
  ghost predicate Validates(job: Job, load: Load) {
    Accepts(job.h, job.def, load.contract, load.system.load)
  }

  function WithPublished(load: Load): Load {
    load.(system := load.system.(load := load.system.load.(published := true)))
  }

  function Replaced(job: Job, s: State, id: LoadId): State
    requires id in s.loads
  {
    var load := s.loads[id];
    s.(final := Outside(s.final, SlotsOf(job, load)) + Rows(job, id, load, load.system.load.staging),
       ledger := s.ledger + map slot | slot in SlotsOf(job, load) :: id,
       loads := s.loads[id := WithPublished(load)],
       promoted := s.promoted[id := load.system.load.staging])
  }

  /** `fence` publications also finish their run in the same transaction. */
  ghost function Promote(job: Job, s: State, id: LoadId, fence: Fence): (State, Outcome) {
    if id !in s.loads || !IsComplete(job, s.loads[id]) || (fence.Fenced? && !fence.mine) then (s, Rejected)
    else if IsStale(job, s, id) then (s, Stale)
    else if IsReplay(job, s, id) then (s, if fence.Fenced? && !fence.finishes then NotFinished else Replayed)
    else if !Validates(job, s.loads[id]) then (s, Rejected)
    else if fence.Fenced? && !fence.finishes then (s, NotFinished)
    else (Replaced(job, s, id), Published)
  }

  datatype Event =
    | EBegin(contract: Contract, keys: seq<string>, members: map<string, Member>)
    | EWork(load: LoadId, work: R.Event)
    | EClean(load: LoadId)
    | ECorrupt(load: LoadId, staging: map<string, seq<StagedRow>>)
    | EPromote(load: LoadId, fence: Fence)

  const Initial := State(map[], map[], [], map[], {}, 1)

  function NewSystem(members: map<string, Member>): R.System {
    R.System(LoadState(false, members, map[], map key <- members :: []), R.Executor(map key <- members :: [], {}))
  }

  function WithStaging(load: Load, staging: map<string, seq<StagedRow>>): Load {
    load.(system := load.system.(load := load.system.load.(staging := staging)))
  }

  /** The checksum column is as wide as a checksum. */
  predicate Narrow(staging: map<string, seq<StagedRow>>) {
    forall key <- staging, row <- staging[key] :: |row.source.checksum| <= ROW_CHECKSUM_LENGTH
  }

  /** Cleaning deletes a load's staging rows; corruption makes them any others that the columns can hold. */
  ghost function Step(job: Job, s: State, e: Event): State {
    match e
    case EBegin(contract, keys, members) =>
      var load := Load(contract, keys, NewSystem(members));
      if !V.MembersListed(members, keys) || !R.Created(PlanOf(job, load), load.system) then s
      else s.(loads := s.loads[s.next := load], next := s.next + 1)
    case EWork(id, work) =>
      if id !in s.loads then s
      else
        var load := s.loads[id];
        s.(loads := s.loads[id := load.(system := R.Step(PlanOf(job, load), load.system, work))])
    case EClean(id) =>
      if id !in s.loads then s
      else s.(loads := s.loads[id := WithStaging(s.loads[id], map key <- s.loads[id].system.load.staging :: [])])
    case ECorrupt(id, staging) =>
      if id !in s.loads || staging.Keys != s.loads[id].system.load.staging.Keys || !Narrow(staging) then s
      else s.(loads := s.loads[id := WithStaging(s.loads[id], staging)], corrupted := s.corrupted + {id})
    case EPromote(id, fence) => Promote(job, s, id, fence).0
  }

  ghost function Run(job: Job, events: seq<Event>): State {
    if events == [] then Initial else Step(job, Run(job, events[..|events| - 1]), events[|events| - 1])
  }

  // ---------------------------------------------------------------------------------------------------------
  // The invariant
  // ---------------------------------------------------------------------------------------------------------

  /** The ledger's entry names a published load that covers the slot. */
  ghost predicate EntryOk(job: Job, s: State, slot: Slot)
    requires slot in s.ledger
  {
    var id := s.ledger[slot];
    && id in s.loads && id in s.promoted
    && IsPublished(s.loads[id])
    && slot in SlotsOf(job, s.loads[id])
  }

  /** The final rows of a slot are the rows its load had staged for it when promoted; an unlisted slot has none. */
  ghost predicate FinalOk(job: Job, s: State, slot: Slot) {
    if slot in s.ledger then
      && s.ledger[slot] in s.loads && s.ledger[slot] in s.promoted
      && On(s.final, slot)
         == On(Rows(job, s.ledger[slot], s.loads[s.ledger[slot]], s.promoted[s.ledger[slot]]), slot)
    else On(s.final, slot) == []
  }

  /** A load's records are in order, and its staging rows fit their columns and, if undamaged, only lack some. */
  ghost predicate LoadOk(job: Job, load: Load, corrupted: bool) {
    && V.MembersListed(load.system.load.members, load.keys)
    && RecordsOk(PlanOf(job, load), load.system)
    && Narrow(load.system.load.staging)
    && (!corrupted ==>
          forall key <- load.system.load.staging ::
            IsSuffix(load.system.load.staging[key], Untouched(PlanOf(job, load), load.system)[key]))
  }

  /** What was promoted was accepted, fits its columns and, if undamaged, only lacks some rows. */
  ghost predicate PromotedOk(job: Job, load: Load, staging: map<string, seq<StagedRow>>, corrupted: bool) {
    && RecordsOk(PlanOf(job, load), load.system)
    && Accepts(job.h, job.def, load.contract, load.system.load.(staging := staging))
    && Narrow(staging)
    && (!corrupted ==> forall key <- staging :: key in load.system.load.members
                         && IsSuffix(staging[key], Untouched(PlanOf(job, load), load.system)[key]))
  }

  /** A load is published exactly when it was promoted, and what it covered is since covered by it or a later load. */
  ghost predicate PublishedOk(job: Job, s: State, id: LoadId)
    requires id in s.loads
  {
    && id < s.next
    && LoadOk(job, s.loads[id], id in s.corrupted)
    && (IsPublished(s.loads[id]) <==> id in s.promoted)
    && (id in s.promoted ==>
          && PromotedOk(job, s.loads[id], s.promoted[id], id in s.corrupted)
          && (forall slot <- SlotsOf(job, s.loads[id]) :: slot in s.ledger && s.ledger[slot] >= id))
  }

  ghost predicate Inv(job: Job, s: State) {
    && (forall slot {:trigger EntryOk(job, s, slot)} | slot in s.ledger :: EntryOk(job, s, slot))
    && (forall slot :: FinalOk(job, s, slot))
    && (forall id {:trigger PublishedOk(job, s, id)} | id in s.loads :: PublishedOk(job, s, id))
    && s.promoted.Keys <= s.loads.Keys
  }

  lemma {:induction false} OnConcat(a: seq<FinalRow>, b: seq<FinalRow>, slot: Slot)
    ensures On(a + b, slot) == On(a, slot) + On(b, slot)
  {
    if b == [] {
      assert a + b == a;
    } else {
      var n := |b| - 1;
      assert (a + b)[..|a + b| - 1] == a + b[..n];
      OnConcat(a, b[..n], slot);
    }
  }

  lemma {:induction false} OnOutside(rows: seq<FinalRow>, slots: set<Slot>, slot: Slot)
    ensures On(Outside(rows, slots), slot) == if slot in slots then [] else On(rows, slot)
  {
    if rows != [] {
      var n := |rows| - 1;
      OnOutside(rows[..n], slots, slot);
      OnConcat(Outside(rows[..n], slots), if rows[n].slot in slots then [] else [rows[n]], slot);
      assert On([rows[n]], slot) == if rows[n].slot == slot then [rows[n]] else [];
    }
  }

  lemma {:induction false} OnOther(rows: seq<FinalRow>, slot: Slot)
    requires forall n | 0 <= n < |rows| :: rows[n].slot != slot
    ensures On(rows, slot) == []
  {
    if rows != [] { OnOther(rows[..|rows| - 1], slot); }
  }

  lemma {:induction false} InCollected(keys: seq<string>, staging: map<string, seq<StagedRow>>, row: StagedRow)
    requires row in Collected(keys, staging)
    ensures exists key <- keys :: key in staging && row in staging[key]
  {
    var n := |keys| - 1;
    if !(keys[n] in staging && row in staging[keys[n]]) { InCollected(keys[..n], staging, row); }
  }

  /** The rows of an accepted load lie on the slots of the load. */
  lemma AcceptedInSlots(job: Job, id: LoadId, load: Load, staging: map<string, seq<StagedRow>>)
    requires Accepts(job.h, job.def, load.contract, load.system.load.(staging := staging))
    ensures forall row <- Rows(job, id, load, staging) :: row.slot in SlotsOf(job, load)
  {
    hide Accepts, Collected, Ordinal;
    var rows := Rows(job, id, load, staging);
    forall row <- rows ensures row.slot in SlotsOf(job, load) {
      var n :| 0 <= n < |rows| && rows[n] == row;
      assert row.row in Collected(load.keys, staging);
      InCollected(load.keys, staging, row.row);
      var key :| key in load.keys && key in staging && row.row in staging[key];
      if job.def.publication == DateAddressable {
        AcceptedKeys(job, load, staging, key);
        R.AcceptedCoverage(PlanOf(job, load), load.system.load.(staging := staging), key, row.row);
      }
    }
  }

  lemma AcceptedKeys(job: Job, load: Load, staging: map<string, seq<StagedRow>>, key: string)
    requires Accepts(job.h, job.def, load.contract, load.system.load.(staging := staging)) && key in staging
    ensures key in load.system.load.members
  {
  }

  // ---------------------------------------------------------------------------------------------------------
  // Promotion keeps the invariant
  // ---------------------------------------------------------------------------------------------------------

  /** A replacement changes its own slots, to the load's rows, and no other. */
  lemma ReplacedSlot(job: Job, s: State, id: LoadId, slot: Slot)
    requires id in s.loads && Validates(job, s.loads[id])
    ensures var load, s' := s.loads[id], Replaced(job, s, id);
            && On(s'.final, slot) == (if slot in SlotsOf(job, load) then On(Rows(job, id, load, load.system.load.staging), slot)
                                      else On(s.final, slot))
            && (slot in s'.ledger <==> slot in SlotsOf(job, load) || slot in s.ledger)
            && (slot in s'.ledger ==> s'.ledger[slot] == if slot in SlotsOf(job, load) then id else s.ledger[slot])
  {
    hide Accepts, SlotsOf, Rows;
    var load := s.loads[id];
    var slots, rows := SlotsOf(job, load), Rows(job, id, load, load.system.load.staging);
    OnConcat(Outside(s.final, slots), rows, slot);
    OnOutside(s.final, slots, slot);
    assert load.system.load == load.system.load.(staging := load.system.load.staging);
    AcceptedInSlots(job, id, load, load.system.load.staging);
    if slot in slots {
      assert [] + On(rows, slot) == On(rows, slot);
    } else {
      OnOther(rows, slot);
      assert On(s.final, slot) + [] == On(s.final, slot);
    }
  }

  /** Publishing a load changes neither its slots nor its rows. */
  lemma SameRows(job: Job, id: LoadId, load: Load, load': Load, staging: map<string, seq<StagedRow>>)
    requires load'.contract == load.contract && load'.keys == load.keys
    ensures SlotsOf(job, load') == SlotsOf(job, load) && Rows(job, id, load', staging) == Rows(job, id, load, staging)
  {
    hide Collected, Ordinal;
  }

  lemma ReplacedFinal(job: Job, s: State, id: LoadId, slot: Slot)
    requires id in s.loads && Validates(job, s.loads[id]) && FinalOk(job, s, slot) && id !in s.promoted
    ensures FinalOk(job, Replaced(job, s, id), slot)
  {
    hide Validates, Rows, SlotsOf, On, Outside;
    ReplacedSlot(job, s, id, slot);
    SameRows(job, id, s.loads[id], WithPublished(s.loads[id]), s.loads[id].system.load.staging);
    if slot in s.ledger {
      SameRows(job, s.ledger[slot], s.loads[id], WithPublished(s.loads[id]), s.promoted[s.ledger[slot]]);
    }
  }

  lemma PublishedRecords(job: Job, load: Load, corrupted: bool)
    requires LoadOk(job, load, corrupted)
    ensures LoadOk(job, WithPublished(load), corrupted)
    ensures Validates(job, load) ==> PromotedOk(job, WithPublished(load), load.system.load.staging, corrupted)
  {
    hide Narrow, IsSuffix, V.MembersListed, R.Inv, Accepts, RowsFetched;
    var p, s, s' := PlanOf(job, load), load.system, WithPublished(load).system;
    assert Untouched(p, s') == Untouched(p, s);
    SameInv(p, Restored(p, s), Restored(p, s'));
    if Validates(job, load) { SameAccepts(job, load.contract, s.load, s'.load.(staging := s.load.staging)); }
  }

  /** Neither the invariant of the records nor acceptance looks at the load's status. */
  lemma SameInv(p: R.Plan, s: R.System, t: R.System)
    requires R.Inv(p, s) && t == s.(load := s.load.(published := t.load.published))
    ensures R.Inv(p, t)
  {
    hide R.AllStaged, Frames, R.Flatten, Planned;
    forall key <- t.load.members ensures R.MemberInv(p, t.load, key, t.load.members[key], t.executor.fetched[key]) {
      R.OtherMember(p, s.load, t.load, key, s.load.members[key], s.executor.fetched[key]);
    }
  }

  lemma SameAccepts(job: Job, contract: Contract, s: LoadState, t: LoadState)
    requires Accepts(job.h, job.def, contract, s) && t == s.(published := t.published)
    ensures Accepts(job.h, job.def, contract, t)
  {
    hide ContractOk, ShapeOk, MemberSegmentsOk, MemberRowsOk;
    forall key <- t.members ensures MemberSegmentsOk(job.def, contract, t, key) && MemberRowsOk(job.h, job.def, t, key) {
      assert MemberSegmentsOk(job.def, contract, s, key) && MemberRowsOk(job.h, job.def, s, key);
      SameSegments(job, contract, s, t, key);
      SameStagedRows(job, s, t, key);
    }
  }

  lemma SameSegments(job: Job, contract: Contract, s: LoadState, t: LoadState, key: string)
    requires key in s.members && MemberSegmentsOk(job.def, contract, s, key) && t == s.(published := t.published)
    ensures MemberSegmentsOk(job.def, contract, t, key)
  {
    hide StoredFits, RowTotal;
    SameTotal(s, t, key, s.members[key].expected);
  }

  lemma SameStagedRows(job: Job, s: LoadState, t: LoadState, key: string)
    requires key in s.members && key in s.staging && MemberRowsOk(job.h, job.def, s, key)
    requires t == s.(published := t.published)
    ensures MemberRowsOk(job.h, job.def, t, key)
  {
    hide Frames, Checksums, OfSegment, CoverageOf, Ordinal;
    forall row <- t.staging[key] ensures StagedRowOk(job.def, t, key, row) { assert StagedRowOk(job.def, s, key, row); }
  }

  lemma {:induction false} SameTotal(s: LoadState, t: LoadState, key: string, n: nat)
    requires t.segments == s.segments
    ensures RowTotal(t, key, n) == RowTotal(s, key, n)
  {
    if n > 0 { SameTotal(s, t, key, n - 1); }
  }

  lemma ReplacedKeeps(job: Job, s: State, id: LoadId)
    requires Inv(job, s) && id in s.loads && Validates(job, s.loads[id]) && !IsStale(job, s, id) && id !in s.promoted
    ensures Inv(job, Replaced(job, s, id))
  {
    hide Validates, LoadOk, PromotedOk, SlotsOf, Rows, On, Outside, FinalOk;
    var s' := Replaced(job, s, id);
    forall i | i in s.loads ensures SlotsOf(job, s'.loads[i]) == SlotsOf(job, s.loads[i]) {
      SameRows(job, i, s.loads[i], s'.loads[i], map[]);
    }
    forall slot | slot in s'.ledger ensures EntryOk(job, s', slot) {
      if slot !in SlotsOf(job, s.loads[id]) { assert EntryOk(job, s, slot); }
    }
    forall slot ensures FinalOk(job, s', slot) {
      assert FinalOk(job, s, slot);
      ReplacedFinal(job, s, id, slot);
    }
    assert PublishedOk(job, s, id);
    PublishedRecords(job, s.loads[id], id in s.corrupted);
    forall i | i in s'.loads ensures PublishedOk(job, s', i) {
      assert PublishedOk(job, s, i);
      if i in s.promoted {
        forall slot <- SlotsOf(job, s.loads[i]) ensures slot in s'.ledger && s'.ledger[slot] >= i {
          assert slot in SlotsOf(job, s.loads[id]) ==> s.ledger[slot] <= id;
        }
      }
    }
  }

  /** A published load that is not stale is a replay, so nothing is promoted twice. */
  lemma PromotedIsReplay(job: Job, s: State, id: LoadId)
    requires Inv(job, s) && id in s.loads && id in s.promoted
    ensures IsStale(job, s, id) <==> !IsReplay(job, s, id)
  {
    hide LoadOk, FinalOk;
    assert PublishedOk(job, s, id);
    SomeSlot(job.def.publication, Ordinal(s.loads[id].contract.from), Ordinal(s.loads[id].contract.to));
  }

  lemma SomeSlot(mode: PublicationMode, from: nat, to: nat)
    ensures mode == DateAddressable && from <= to ==> Day(from) in Slots(mode, from, to)
    ensures mode == IntervalResult ==> Interval(from, to) in Slots(mode, from, to)
  {
  }

  // ---------------------------------------------------------------------------------------------------------
  // Every other step keeps it
  // ---------------------------------------------------------------------------------------------------------

  /** A change of one load that leaves what it promoted in order. */
  lemma LoadKeeps(job: Job, s: State, s': State, id: LoadId)
    requires Inv(job, s) && id in s.loads && id in s'.loads
    requires s' == s.(loads := s.loads[id := s'.loads[id]], corrupted := s'.corrupted)
    requires s'.corrupted == s.corrupted || s'.corrupted == s.corrupted + {id}
    requires s'.loads[id].contract == s.loads[id].contract && s'.loads[id].keys == s.loads[id].keys
    requires IsPublished(s'.loads[id]) == IsPublished(s.loads[id]) && LoadOk(job, s'.loads[id], id in s'.corrupted)
    requires id in s.promoted ==> PromotedOk(job, s'.loads[id], s.promoted[id], id in s'.corrupted)
    ensures Inv(job, s')
  {
    hide LoadOk, PromotedOk, SlotsOf, Rows, On;
    forall i | i in s.loads ensures SlotsOf(job, s'.loads[i]) == SlotsOf(job, s.loads[i]) {
      SameRows(job, i, s.loads[i], s'.loads[i], map[]);
    }
    forall slot | slot in s'.ledger ensures EntryOk(job, s', slot) { assert EntryOk(job, s, slot); }
    forall slot ensures FinalOk(job, s', slot) {
      assert FinalOk(job, s, slot);
      if slot in s.ledger {
        SameRows(job, s.ledger[slot], s.loads[s.ledger[slot]], s'.loads[s.ledger[slot]], s.promoted[s.ledger[slot]]);
      }
    }
    forall i | i in s'.loads ensures PublishedOk(job, s', i) { assert PublishedOk(job, s, i); }
  }

  lemma BeginKeeps(job: Job, s: State, e: Event)
    requires Inv(job, s) && e.EBegin?
    ensures Inv(job, Step(job, s, e))
  {
    hide LoadOk, PromotedOk, SlotsOf, Rows, On, R.Created, V.MembersListed, NewSystem;
    var s' := Step(job, s, e);
    forall i | i in s.loads ensures i < s.next { assert PublishedOk(job, s, i); }
    forall slot | slot in s'.ledger ensures EntryOk(job, s', slot) { assert EntryOk(job, s, slot); }
    forall slot ensures FinalOk(job, s', slot) { assert FinalOk(job, s, slot) && (slot in s.ledger ==> EntryOk(job, s, slot)); }
    forall i | i in s'.loads ensures PublishedOk(job, s', i) {
      if i in s.loads {
        assert PublishedOk(job, s, i);
      } else {
        NewSystemIs(e.members);
        NewLoadOk(job, s'.loads[i], i in s'.corrupted);
      }
    }
  }

  lemma NewSystemIs(members: map<string, Member>)
    ensures NewSystem(members).load.members == members && !NewSystem(members).load.published
  {
  }

  lemma NewLoadOk(job: Job, load: Load, corrupted: bool)
    requires V.MembersListed(load.system.load.members, load.keys)
    requires load.system == NewSystem(load.system.load.members) && R.Created(PlanOf(job, load), load.system)
    ensures LoadOk(job, load, corrupted) && !IsPublished(load)
  {
    hide V.MembersListed;
    R.CreatedInv(PlanOf(job, load), load.system);
    RestoredIsSame(PlanOf(job, load), load.system);
  }

  /** Staged rows have checksums of the right length. */
  lemma StepNarrow(p: R.Plan, s: R.System, e: R.Event)
    requires Narrow(s.load.staging)
    ensures Narrow(R.Step(p, s, e).load.staging)
  {
    hide Planned, ContractOk, SegmentFits, R.Flatten, Frames, SourceChecksums, R.SegmentOf, Stored, CoverageFits, CoverageOf;
    var s' := R.Step(p, s, e);
    forall key <- s'.load.staging, row <- s'.load.staging[key] ensures |row.source.checksum| <= ROW_CHECKSUM_LENGTH {
      if key !in s.load.staging || row !in s.load.staging[key] {
        R.StagedAreSources(p, s, e, key, row);
      }
    }
  }

  /** Nothing is staged for a published load any more, and its members stay finalized. */
  lemma PublishedStays(p: R.Plan, s: R.System, e: R.Event)
    requires s.load.published && forall key <- s.load.members :: s.load.members[key].status == MemberSuccess
    ensures R.Step(p, s, e).load == s.load && R.Step(p, s, e).executor.fetched == s.executor.fetched
  {
    hide Planned, RowFits, ContractOk, SegmentFits, R.Flatten, Frames, SourceChecksums, R.SegmentOf;
  }

  lemma WorkKeeps(job: Job, s: State, e: Event)
    requires Inv(job, s) && e.EWork? && e.load in s.loads
    ensures Inv(job, Step(job, s, e))
  {
    hide Accepts, R.Step, RecordsOk, Narrow, IsSuffix, Untouched, Inv;
    var id, load := e.load, s.loads[e.load];
    var p, load' := PlanOf(job, load), load.(system := R.Step(PlanOf(job, load), load.system, e.work));
    PublishedAt(job, s, id);
    WorkedRecords(job, load, e.work, id in s.corrupted);
    if id in s.promoted {
      AcceptedAreComplete(job, load, s.promoted[id]);
      PublishedStays(p, load.system, e.work);
      SameUntouched(p, load.system, load'.system);
    }
    LoadKeeps(job, s, Step(job, s, e), id);
  }

  lemma PublishedAt(job: Job, s: State, id: LoadId)
    requires Inv(job, s) && id in s.loads
    ensures PublishedOk(job, s, id)
  {
  }

  lemma AcceptedAreComplete(job: Job, load: Load, staging: map<string, seq<StagedRow>>)
    requires Accepts(job.h, job.def, load.contract, load.system.load.(staging := staging))
    ensures IsComplete(job, load)
  {
    hide ContractOk, SegmentsOk, ShapeOk, MemberRowsOk;
  }

  lemma SameUntouched(p: R.Plan, s: R.System, t: R.System)
    requires RecordsOk(p, s) && RecordsOk(p, t)
    requires t.load.members == s.load.members && t.executor.fetched == s.executor.fetched
    ensures Untouched(p, t) == Untouched(p, s)
  {
    hide R.Inv, R.AllStaged, Planned;
  }

  lemma WorkedRecords(job: Job, load: Load, work: R.Event, corrupted: bool)
    requires LoadOk(job, load, corrupted)
    ensures LoadOk(job, load.(system := R.Step(PlanOf(job, load), load.system, work)), corrupted)
    ensures IsPublished(load.(system := R.Step(PlanOf(job, load), load.system, work))) == IsPublished(load)
  {
    hide R.Inv, Restored, Untouched, Narrow, IsSuffix, RecordsOk;
    var p := PlanOf(job, load);
    StepKeepsRecords(p, load.system, work);
    StepNarrow(p, load.system, work);
    WorkKeepsRest(p, load.system, work);
  }

  lemma WorkKeepsRest(p: R.Plan, s: R.System, e: R.Event)
    ensures R.Step(p, s, e).load.published == s.load.published
    ensures R.Step(p, s, e).load.members.Keys == s.load.members.Keys
    ensures RecordsOk(p, s) ==> R.Step(p, s, e).load.staging.Keys == s.load.staging.Keys
  {
    hide Planned, RowFits, ContractOk, SegmentFits, R.Flatten, Frames, SourceChecksums, R.SegmentOf, Staged, Stored, R.Inv;
  }

  /** Rows that come and go do not touch the records. */
  lemma StagingKeeps(job: Job, s: State, s': State, id: LoadId, staging: map<string, seq<StagedRow>>)
    requires Inv(job, s) && id in s.loads && staging.Keys == s.loads[id].system.load.staging.Keys && Narrow(staging)
    requires s' == s.(loads := s.loads[id := WithStaging(s.loads[id], staging)], corrupted := s'.corrupted)
    requires s'.corrupted == s.corrupted || s'.corrupted == s.corrupted + {id}
    requires id in s'.corrupted || forall key <- staging :: staging[key] == []
    ensures Inv(job, s')
  {
    hide Accepts, Narrow, R.Inv, Inv;
    var load, load' := s.loads[id], s'.loads[id];
    PublishedAt(job, s, id);
    assert Untouched(PlanOf(job, load), load'.system) == Untouched(PlanOf(job, load), load.system);
    assert Restored(PlanOf(job, load), load'.system) == Restored(PlanOf(job, load), load.system);
    if id in s.promoted {
      assert load'.system.load.(staging := s.promoted[id]) == load.system.load.(staging := s.promoted[id]);
    }
    LoadKeeps(job, s, s', id);
  }

  lemma StepKeeps(job: Job, s: State, e: Event)
    requires Inv(job, s)
    ensures Inv(job, Step(job, s, e))
  {
    hide Inv, Replaced, Validates, IsStale, IsReplay, R.Step;
    match e
    case EBegin(_, _, _) => BeginKeeps(job, s, e);
    case EWork(id, _) => if id in s.loads { WorkKeeps(job, s, e); }
    case EClean(id) =>
      if id in s.loads {
        StagingKeeps(job, s, Step(job, s, e), id, map key <- s.loads[id].system.load.staging :: []);
      }
    case ECorrupt(id, staging) =>
      if id in s.loads && staging.Keys == s.loads[id].system.load.staging.Keys && Narrow(staging) {
        StagingKeeps(job, s, Step(job, s, e), id, staging);
      }
    case EPromote(id, fence) =>
      if Promote(job, s, id, fence).1 == Published {
        if id in s.promoted { PromotedIsReplay(job, s, id); }
        ReplacedKeeps(job, s, id);
      }
  }

  lemma {:induction false} RunKeeps(job: Job, events: seq<Event>)
    ensures Inv(job, Run(job, events))
  {
    hide Inv, Step;
    if events == [] {
      InitialOk(job);
    } else {
      RunKeeps(job, events[..|events| - 1]);
      StepKeeps(job, Run(job, events[..|events| - 1]), events[|events| - 1]);
    }
  }

  lemma InitialOk(job: Job)
    ensures Inv(job, Initial)
  {
  }

  // ---------------------------------------------------------------------------------------------------------
  // Results
  // ---------------------------------------------------------------------------------------------------------

  /**
   After any sequence of promotions every ledger entry names a published load covering its slot, the final rows of the
   slot are exactly the rows that load had staged for it when it was promoted, and a slot without entry has no rows.
  */
  lemma LedgerAgreesWithFinal(job: Job, events: seq<Event>, slot: Slot)
    ensures var s := Run(job, events);
            if slot in s.ledger then
              var id := s.ledger[slot];
              && EntryOk(job, s, slot)
              && On(s.final, slot) == On(Rows(job, id, s.loads[id], s.promoted[id]), slot)
            else On(s.final, slot) == []
  {
    hide Run, On, Rows, PublishedOk;
    RunKeeps(job, events);
    var s := Run(job, events);
    assert FinalOk(job, s, slot) && (slot in s.ledger ==> EntryOk(job, s, slot));
  }

  /**
   What was promoted for a member has the checksums of all the segments the executor fetched for it, in order, whatever
   happened to the staging table in between; and unless rows were damaged it is exactly what was fetched.
  */
  lemma PromotedIsFetched(job: Job, events: seq<Event>, s: State, id: LoadId, key: string)
    requires Injective(job.h) && s == Run(job, events) && id in s.loads && id in s.promoted
    requires key in s.loads[id].system.load.members
    ensures var system, staging := s.loads[id].system, s.promoted[id];
            && key in system.executor.fetched && key in staging
            && |system.executor.fetched[key]| == system.load.members[key].expected
            && Checksums(staging[key]) == SourceChecksums(R.Flatten(system.executor.fetched[key]))
            && (id !in s.corrupted ==> staging[key] == Untouched(PlanOf(job, s.loads[id]), system)[key])
  {
    hide Run, Inv, Checksums, SourceChecksums, Accepts, Untouched, IsSuffix, Frames;
    RunKeeps(job, events);
    PublishedAt(job, s, id);
    var load := s.loads[id];
    AcceptedMembers(job, load, s.promoted[id]);
    NarrowIsShort(s.promoted[id], key);
    AcceptedRecords(PlanOf(job, load), load.system, s.promoted[id], key);
    if id !in s.corrupted { AcceptedUntouched(PlanOf(job, load), load.system, s.promoted[id], key); }
  }

  lemma AcceptedMembers(job: Job, load: Load, staging: map<string, seq<StagedRow>>)
    requires Accepts(job.h, job.def, load.contract, load.system.load.(staging := staging))
    ensures staging.Keys == load.system.load.members.Keys
  {
    hide ContractOk, SegmentsOk, ShapeOk, MemberRowsOk;
  }

  lemma NarrowIsShort(staging: map<string, seq<StagedRow>>, key: string)
    requires Narrow(staging) && key in staging
    ensures Short(Checksums(staging[key]), LENGTH_WIDTH)
  {
    assert Power256(4) == 256 * 256 * 256 * 256;
    forall x <- Checksums(staging[key]) ensures |x| < Power256(LENGTH_WIDTH) {
      var n :| 0 <= n < |staging[key]| && staging[key][n].source.checksum == x;
      assert staging[key][n] in staging[key];
    }
  }

  /** The final rows of a listed slot are what the load's executor fetched for it, if nobody damaged staged rows. */
  lemma FinalIsFetched(job: Job, events: seq<Event>, s: State, slot: Slot)
    requires Injective(job.h) && s == Run(job, events) && slot in s.ledger && s.ledger[slot] !in s.corrupted
    requires s.ledger[slot] in s.loads
    ensures var id := s.ledger[slot];
            && s.loads[id].system.executor.fetched.Keys == s.loads[id].system.load.members.Keys
            && On(s.final, slot) == On(Rows(job, id, s.loads[id], Untouched(PlanOf(job, s.loads[id]), s.loads[id].system)), slot)
  {
    hide Run, Inv, Accepts, Rows, On, R.Inv, IsSuffix, Narrow;
    LedgerAgreesWithFinal(job, events, slot);
    RunKeeps(job, events);
    var id := s.ledger[slot];
    PublishedAt(job, s, id);
    AcceptedMembers(job, s.loads[id], s.promoted[id]);
    var staging, untouched := s.promoted[id], Untouched(PlanOf(job, s.loads[id]), s.loads[id].system);
    forall key | key in staging ensures staging[key] == untouched[key] { PromotedIsFetched(job, events, s, id, key); }
    assert staging == untouched;
  }

  /** The authority for a slot never goes back to an earlier load. */
  lemma {:induction false} AuthorityNeverGoesBack(job: Job, before: seq<Event>, more: seq<Event>, slot: Slot)
    requires slot in Run(job, before).ledger
    ensures slot in Run(job, before + more).ledger
    ensures Run(job, before).ledger[slot] <= Run(job, before + more).ledger[slot]
  {
    hide Run, Step;
    RunFurther(job, before, more);
    if more != [] {
      var n := |more| - 1;
      AuthorityNeverGoesBack(job, before, more[..n], slot);
      StepRaises(job, Run(job, before + more[..n]), more[n], slot);
    }
  }

  lemma RunFurther(job: Job, before: seq<Event>, more: seq<Event>)
    ensures Run(job, before + more) == if more == [] then Run(job, before)
                                       else Step(job, Run(job, before + more[..|more| - 1]), more[|more| - 1])
  {
    hide Step;
    if more == [] {
      assert before + more == before;
    } else {
      assert (before + more)[..|before + more| - 1] == before + more[..|more| - 1];
    }
  }

  lemma StepRaises(job: Job, s: State, e: Event, slot: Slot)
    requires slot in s.ledger
    ensures slot in Step(job, s, e).ledger && s.ledger[slot] <= Step(job, s, e).ledger[slot]
  {
    hide Validates, R.Step, R.Created, SlotsOf, IsComplete;
    if e.EPromote? && Promote(job, s, e.load, e.fence).1 == Published {
      assert !IsStale(job, s, e.load);
    }
  }

  /** A published load is either a replay or, superseded anywhere, stale: promoting it again changes nothing. */
  lemma PublishedIsSettled(job: Job, events: seq<Event>, s: State, id: LoadId, fence: Fence)
    requires s == Run(job, events) && id in s.loads && IsPublished(s.loads[id])
    requires fence == Unfenced || fence.mine
    ensures Promote(job, s, id, fence).0 == s
    ensures IsStale(job, s, id) <==> !IsReplay(job, s, id)
    ensures Promote(job, s, id, fence).1 == if IsStale(job, s, id) then Stale
                                            else if fence.Fenced? && !fence.finishes then NotFinished else Replayed
  {
    hide Run, Inv, IsStale, IsReplay, Validates, LoadOk;
    RunKeeps(job, events);
    PublishedAt(job, s, id);
    PromotedIsReplay(job, s, id);
    AcceptedAreComplete(job, s.loads[id], s.promoted[id]);
  }

  /** What a promotion does: everything it covers, and nothing else, becomes the load's; or nothing changes at all. */
  lemma PromotionIsExact(job: Job, s: State, id: LoadId, fence: Fence, slot: Slot)
    ensures var (s', outcome) := Promote(job, s, id, fence);
            && (outcome != Published ==> s' == s)
            && (outcome == Published ==>
                  && id in s.loads
                  && IsPublished(s'.loads[id])
                  && (slot in SlotsOf(job, s.loads[id]) ==>
                        && slot in s'.ledger && s'.ledger[slot] == id
                        && On(s'.final, slot) == On(Rows(job, id, s.loads[id], s.loads[id].system.load.staging), slot))
                  && (slot !in SlotsOf(job, s.loads[id]) ==>
                        && (slot in s'.ledger <==> slot in s.ledger)
                        && (slot in s.ledger ==> s'.ledger[slot] == s.ledger[slot])
                        && On(s'.final, slot) == On(s.final, slot)))
  {
    hide Validates, On, Rows, SlotsOf, IsStale, IsReplay, IsComplete;
    if Promote(job, s, id, fence).1 == Published { ReplacedSlot(job, s, id, slot); }
  }
}
