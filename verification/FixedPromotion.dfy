/**
 The promotion transaction of internal/ingestionstore/fixed.go, statement by statement, with its loops over the dates
 of the ledger.
*/
module FixedPromotion {
  import opened Options
  import opened Chunks
  import opened Calendar
  import opened FixedStaging
  import L = FixedLedger
  import V = FixedValidation
  import FixedRepository

  const BATCH: nat := 500

  class Ledger {
    const job: L.Job
    var loads: map<L.LoadId, L.Load>
    var ledger: map<L.Slot, L.LoadId>
    var final: seq<L.FinalRow>
    var promoted: map<L.LoadId, map<string, seq<StagedRow>>>
    var corrupted: set<L.LoadId>
    var next: L.LoadId

    constructor (job: L.Job)
      ensures this.job == job && State() == L.Initial
    {
      this.job := job;
      loads, ledger, final, promoted, corrupted, next := map[], map[], [], map[], {}, 1;
    }

    function State(): L.State
      reads this
    {
      L.State(loads, ledger, final, promoted, corrupted, next)
    }

    predicate Named(id: L.LoadId, from: nat, end: nat)
      reads this
    {
      forall d: nat | from <= d < end :: L.Day(d) in ledger && ledger[L.Day(d)] == id
    }

    /** Reads the ledger over the load's dates: whether one is ahead, and how many already name the load. */
    method ReadDates(id: L.LoadId, from: nat, to: nat) returns (stale: bool, equal: nat, count: nat)
      ensures stale <==> exists d: nat :: from <= d <= to && L.Day(d) in ledger && ledger[L.Day(d)] > id
      ensures !stale ==>
        (equal == count <==> Named(id, from, to + 1))
    {
      stale, equal, count := false, 0, 0;
      var d := from;
      while d <= to
        invariant from <= d && d <= (if from <= to then to + 1 else from) && equal <= count
        invariant forall x: nat | from <= x < d :: !(L.Day(x) in ledger && ledger[L.Day(x)] > id)
        invariant equal == count <==> Named(id, from, d)
      {
        if L.Day(d) in ledger {
          if ledger[L.Day(d)] > id { return true, equal, count; }
          if ledger[L.Day(d)] == id { equal := equal + 1; }
        }
        count := count + 1;
        assert Named(id, from, d + 1) <==> Named(id, from, d) && L.Day(d) in ledger && ledger[L.Day(d)] == id;
        d := d + 1;
      }
    }

    /** Upserts one ledger row for each date, in statements of at most BATCH rows. */
    method PublishDates(id: L.LoadId, from: nat, to: nat)
      modifies this`ledger
      ensures ledger == old(ledger) + map slot | slot in L.Slots(DateAddressable, from, to) :: id
    {
      hide Upserted;
      var d := from;
      var first := from;
      NothingUpserted(ledger, from, id);
      while d <= to
        invariant from <= first <= d <= (if from <= to then to + 1 else from) && d - first < BATCH
        invariant ledger == Upserted(old(ledger), from, first, id)
      {
        d := d + 1;
        if d - first == BATCH {
          UpsertedTwice(old(ledger), from, first, d, id);
          ledger := Upserted(ledger, first, d, id);
          first := d;
        }
      }
      UpsertedTwice(old(ledger), from, first, d, id);
      ledger := Upserted(ledger, first, d, id);
      UpsertedSlots(old(ledger), from, to, id);
    }

    /** The member query returns each member once, and staging rows belong to members. */
    ghost predicate Valid()
      reads this
    {
      forall id <- loads ::
        && V.MembersListed(loads[id].system.load.members, loads[id].keys)
        && loads[id].system.load.staging.Keys == loads[id].system.load.members.Keys
    }

    method Promote(id: L.LoadId, fence: L.Fence) returns (outcome: L.Outcome)
      requires Valid()
      modifies this`loads, this`ledger, this`final, this`promoted
      ensures Valid()
      ensures (State(), outcome) == L.Promote(job, old(State()), id, fence)
    {
      hide L.Validates, L.Replaced, L.IsStale, L.IsReplay, L.IsComplete, V.MembersListed;
      if id !in loads { return L.Rejected; }
      var load := loads[id];
      var complete := CheckComplete(job, load);
      if !complete || (fence.Fenced? && !fence.mine) { return L.Rejected; }
      var stale, replay := ReadAuthority(id, load);
      if stale { return L.Stale; }
      if replay {
        if fence.Fenced? && !fence.finishes { return L.NotFinished; }
        return L.Replayed;
      }
      var valid := Validate(job, load);
      if !valid { return L.Rejected; }
      var before := (loads, ledger, final, promoted);
      Replace(id);
      if fence.Fenced? && !fence.finishes {
        loads, ledger, final, promoted := before.0, before.1, before.2, before.3;
        return L.NotFinished;
      }
      return L.Published;
    }

    /** Deletes the final rows of the load's slots, copies its staging rows, and makes it their authority. */
    method Replace(id: L.LoadId)
      requires Valid() && id in loads
      modifies this`loads, this`ledger, this`final, this`promoted
      ensures Valid()
      ensures State() == L.Replaced(job, old(State()), id)
    {
      hide L.Rows, L.Outside, V.MembersListed, Ordinal;
      var load := loads[id];
      final := L.Outside(final, L.SlotsOf(job, load));
      final := final + L.Rows(job, id, load, load.system.load.staging);
      if job.def.publication == DateAddressable {
        PublishDates(id, Ordinal(load.contract.from), Ordinal(load.contract.to));
      } else {
        ledger := ledger[L.Interval(Ordinal(load.contract.from), Ordinal(load.contract.to)) := id];
        assert ledger == old(ledger) + map slot | slot in L.SlotsOf(job, load) :: id;
      }
      loads := loads[id := L.WithPublished(load)];
      promoted := promoted[id := load.system.load.staging];
    }

    /** Whether a newer load holds some slot of this one, and whether this one, published, holds them all. */
    method ReadAuthority(id: L.LoadId, load: L.Load) returns (stale: bool, replay: bool)
      requires id in loads && loads[id] == load
      ensures stale == L.IsStale(job, State(), id)
      ensures !stale ==> replay == L.IsReplay(job, State(), id)
    {
      hide Ordinal;
      var from, to := Ordinal(load.contract.from), Ordinal(load.contract.to);
      replay := false;
      match job.def.publication {
        case DateAddressable =>
          var equal, count;
          stale, equal, count := ReadDates(id, from, to);
          DatesAreSlots(from, to);
          if !stale { replay := L.IsPublished(load) && equal == count; }
        case IntervalResult =>
          var slot := L.Interval(from, to);
          stale := slot in ledger && ledger[slot] > id;
          if !stale { replay := slot in ledger && ledger[slot] == id && L.IsPublished(load); }
      }
    }
  }

  /** The contract, the number of members, and every member's status. */
  method CheckComplete(job: L.Job, load: L.Load) returns (ok: bool)
    requires V.MembersListed(load.system.load.members, load.keys)
    ensures ok == L.IsComplete(job, load)
  {
    hide ContractOk;
    var members := load.system.load.members;
    if !ContractOk(load.contract, job.def) || |members| != load.contract.expectedMembers { return false; }
    for n := 0 to |load.keys|
      invariant forall k: nat | k < n :: members[load.keys[k]].status == MemberSuccess
    {
      assert load.keys[n] in load.keys;
      if members[load.keys[n]].status != MemberSuccess { return false; }
    }
    return true;
  }

  /** The recorded segments against the plan, then the staged rows of each member against what was recorded. */
  method Validate(job: L.Job, load: L.Load) returns (ok: bool)
    requires V.MembersListed(load.system.load.members, load.keys) && L.IsComplete(job, load)
    requires load.system.load.staging.Keys == load.system.load.members.Keys
    ensures ok == L.Validates(job, load)
  {
    hide ContractOk, SegmentsOk, ShapeOk, MemberRowsOk;
    var s := load.system.load;
    var list := V.ReadSegments(s);
    var segments := V.ValidateSegments(job.def, load.contract, s, load.keys, list);
    if !segments { return false; }
    for n := 0 to |load.keys|
      invariant forall k: nat | k < n :: load.keys[k] in s.members && MemberRowsOk(job.h, job.def, s, load.keys[k])
    {
      assert load.keys[n] in load.keys;
      var matches := FixedRepository.StagedMemberMatches(job.h, job.def, s, load.keys[n]);
      if !matches { return false; }
    }
    assert forall key <- s.members :: key in load.keys;
    return true;
  }

  function Days(first: nat, end: nat): set<L.Slot> {
    set d: nat | first <= d < end :: L.Day(d)
  }

  function Upserted(ledger: map<L.Slot, L.LoadId>, first: nat, end: nat, id: L.LoadId): map<L.Slot, L.LoadId> {
    ledger + map slot | slot in Days(first, end) :: id
  }

  lemma NothingUpserted(ledger: map<L.Slot, L.LoadId>, first: nat, id: L.LoadId)
    ensures Upserted(ledger, first, first, id) == ledger
  {
    assert Days(first, first) == {};
  }

  lemma UpsertedTwice(ledger: map<L.Slot, L.LoadId>, first: nat, middle: nat, end: nat, id: L.LoadId)
    requires first <= middle <= end
    ensures Upserted(Upserted(ledger, first, middle, id), middle, end, id) == Upserted(ledger, first, end, id)
  {
    assert Days(first, middle) + Days(middle, end) == Days(first, end);
  }

  lemma UpsertedSlots(ledger: map<L.Slot, L.LoadId>, from: nat, to: nat, id: L.LoadId)
    ensures Upserted(ledger, from, if from <= to then to + 1 else from, id)
         == ledger + map slot | slot in L.Slots(DateAddressable, from, to) :: id
  {
    assert Days(from, if from <= to then to + 1 else from) == L.Slots(DateAddressable, from, to);
  }

  lemma DatesAreSlots(from: nat, to: nat)
    ensures forall slot <- L.Slots(DateAddressable, from, to) :: slot.Day? && from <= slot.day <= to
    ensures forall d: nat | from <= d <= to :: L.Day(d) in L.Slots(DateAddressable, from, to)
  {
  }
}
