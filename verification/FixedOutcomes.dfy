/** Exactly which promotions publish, and which are stale. */
module FixedOutcomes {
  import opened Options
  import opened Calendar
  import opened Chunks
  import opened FixedStaging
  import opened FixedLedger
  import Runs
  import RunInvariants
  import P = FixedPublishing

  /** The dates of the load, each on its own, or its interval as a whole. */
  predicate Covers(job: Job, load: Load, slot: Slot) {
    match job.def.publication
    case DateAddressable => slot.Day? && Ordinal(load.contract.from) <= slot.day <= Ordinal(load.contract.to)
    case IntervalResult => slot == Interval(Ordinal(load.contract.from), Ordinal(load.contract.to))
  }

  /** Some date of the load belongs to a load begun later. */
  ghost predicate Superseded(job: Job, s: State, id: LoadId)
    requires id in s.loads
  {
    exists slot | slot in s.ledger :: Covers(job, s.loads[id], slot) && s.ledger[slot] > id
  }

  lemma SlotsAreCovered(job: Job, load: Load)
    ensures forall slot :: slot in SlotsOf(job, load) <==> Covers(job, load, slot)
  {
    hide Ordinal;
    var from, to := Ordinal(load.contract.from), Ordinal(load.contract.to);
    assert forall d: nat :: (Day(d) in Slots(DateAddressable, from, to) <==> from <= d <= to);
  }

  /** A later load covers this slot too, and is published. */
  ghost predicate HoldsLater(job: Job, s: State, id: LoadId, m: LoadId, slot: Slot) {
    && id in s.loads && m in s.loads && m > id && IsPublished(s.loads[m])
    && Covers(job, s.loads[id], slot) && Covers(job, s.loads[m], slot)
  }

  /** So a load is superseded exactly when one begun later and sharing a date with it was published. */
  lemma SupersededByPublished(job: Job, events: seq<Event>, s: State, id: LoadId)
    requires s == Run(job, events) && id in s.loads
    ensures Superseded(job, s, id) <==> exists m, slot :: HoldsLater(job, s, id, m, slot)
  {
    hide Run, Covers, LoadOk, PromotedOk, FinalOk;
    RunKeeps(job, events);
    if Superseded(job, s, id) {
      var slot :| slot in s.ledger && Covers(job, s.loads[id], slot) && s.ledger[slot] > id;
      assert EntryOk(job, s, slot);
      SlotsAreCovered(job, s.loads[s.ledger[slot]]);
      assert HoldsLater(job, s, id, s.ledger[slot], slot);
    }
    if m, slot :| HoldsLater(job, s, id, m, slot) {
      assert PublishedOk(job, s, m);
      SlotsAreCovered(job, s.loads[m]);
      assert slot in s.ledger && s.ledger[slot] >= m;
    }
  }

  /**
   In every reachable state a promotion by the load's own run publishes exactly an accepted load that is neither
   published nor superseded; a complete load is stale exactly if it is superseded; and a published one that is not
   superseded is replayed. Where the run cannot finish, nothing is published.
  */
  lemma PromotionOutcome(job: Job, events: seq<Event>, s: State, id: LoadId, fence: Fence)
    requires s == Run(job, events) && id in s.loads
    ensures var load, outcome := s.loads[id], Promote(job, s, id, fence).1;
            var own, finishes := fence == Unfenced || fence.mine, fence == Unfenced || fence.finishes;
            var valid := Accepts(job.h, job.def, load.contract, load.system.load);
            && (outcome == Published <==> own && finishes && valid && !IsPublished(load) && !Superseded(job, s, id))
            && (outcome == Replayed <==> own && finishes && IsPublished(load) && !Superseded(job, s, id))
            && (outcome == Stale <==>
                  && own && Superseded(job, s, id)
                  && ContractOk(load.contract, job.def) && |load.system.load.members| == load.contract.expectedMembers
                  && forall key <- load.system.load.members :: load.system.load.members[key].status == MemberSuccess)
            && (outcome == NotFinished <==> own && !finishes && !Superseded(job, s, id) && (IsPublished(load) || valid))
            && (valid || IsPublished(load) ==> (outcome == Rejected <==> !own))
  {
    hide Run, Inv, Accepts, Covers, SlotsOf, Replaced;
    RunKeeps(job, events);
    PublishedAt(job, s, id);
    SlotsAreCovered(job, s.loads[id]);
    if IsPublished(s.loads[id]) {
      AcceptedAreComplete(job, s.loads[id], s.promoted[id]);
      PromotedIsReplay(job, s, id);
    }
    var load := s.loads[id];
    assert load.system.load.(staging := load.system.load.staging) == load.system.load;
    if Accepts(job.h, job.def, load.contract, load.system.load) {
      AcceptedAreComplete(job, load, load.system.load.staging);
    }
  }

  /** An accepted load begun after every published one always publishes, and then holds all of its dates. */
  lemma NewestPublishes(job: Job, events: seq<Event>, s: State, id: LoadId, slot: Slot)
    requires s == Run(job, events) && id in s.loads
    requires Accepts(job.h, job.def, s.loads[id].contract, s.loads[id].system.load)
    requires forall m <- s.loads | IsPublished(s.loads[m]) :: m < id
    ensures var (s', outcome) := Promote(job, s, id, Unfenced);
            && outcome == Published
            && (Covers(job, s.loads[id], slot) ==> slot in s'.ledger && s'.ledger[slot] == id)
            && (!Covers(job, s.loads[id], slot) ==>
                  && (slot in s'.ledger <==> slot in s.ledger)
                  && (slot in s.ledger ==> s'.ledger[slot] == s.ledger[slot])
                  && On(s'.final, slot) == On(s.final, slot))
  {
    hide Run, Accepts, Covers, SlotsOf, Promote, On;
    SupersededByPublished(job, events, s, id);
    PromotionOutcome(job, events, s, id, Unfenced);
    PromotionIsExact(job, s, id, Unfenced, slot);
    SlotsAreCovered(job, s.loads[id]);
  }

  /** Every final row lies on the business date it was staged with, or its load's interval, and is the authority's. */
  lemma FinalRowsOnTheirDates(job: Job, events: seq<Event>, s: State, row: FinalRow)
    requires s == Run(job, events) && row in s.final
    ensures row.load in s.loads && IsPublished(s.loads[row.load]) && Covers(job, s.loads[row.load], row.slot)
    ensures row.slot in s.ledger && s.ledger[row.slot] == row.load
    ensures match job.def.publication
            case DateAddressable => row.row.coverage.Some? && row.slot == Day(Ordinal(row.row.coverage.value))
            case IntervalResult =>
              row.slot == Interval(Ordinal(s.loads[row.load].contract.from), Ordinal(s.loads[row.load].contract.to))
  {
    hide Run, Covers, LoadOk, PromotedOk, Accepts, On, Rows, Ordinal;
    RunKeeps(job, events);
    InOn(s.final, row);
    assert FinalOk(job, s, row.slot);
    if row.slot in s.ledger {
      var id := s.ledger[row.slot];
      assert EntryOk(job, s, row.slot);
      SlotsAreCovered(job, s.loads[id]);
      OnlyOn(Rows(job, id, s.loads[id], s.promoted[id]), row.slot, row);
      RowsOf(job, id, s.loads[id], s.promoted[id], row);
      CoveredNotDateless(job, s.loads[id], row.slot);
    }
  }

  lemma {:induction false} InOn(rows: seq<FinalRow>, row: FinalRow)
    requires row in rows
    ensures row in On(rows, row.slot)
  {
    if rows[|rows| - 1] != row { InOn(rows[..|rows| - 1], row); }
  }

  lemma {:induction false} OnlyOn(rows: seq<FinalRow>, slot: Slot, row: FinalRow)
    requires row in On(rows, slot)
    ensures row in rows
  {
    if rows[|rows| - 1] != row { OnlyOn(rows[..|rows| - 1], slot, row); }
  }

  lemma RowsOf(job: Job, id: LoadId, load: Load, staging: map<string, seq<StagedRow>>, row: FinalRow)
    requires row in Rows(job, id, load, staging)
    ensures row.load == id && row.slot == SlotOf(job, load, row.row)
  {
    hide Collected, SlotOf;
  }

  lemma CoveredNotDateless(job: Job, load: Load, slot: Slot)
    requires Covers(job, load, slot)
    ensures slot != NoDay
  {
  }

  /**
   With the runs: a promotion publishes exactly when its executor works on the load's run, which is running and not to
   be cancelled, and the load is accepted and not superseded.
  */
  lemma RunPublishesExactly(catalog: Runs.Catalog, job: Job, events: seq<P.Event>, s: P.State, id: LoadId,
                            owner: Runs.Owner, heard: bool)
    requires s == P.Run(catalog, job, events) && id in s.tables.loads && !IsPublished(s.tables.loads[id])
    requires job.def.key in catalog.publishing
    ensures var load, s' := s.tables.loads[id], P.Step(catalog, job, s, P.EPromote(id, owner, heard));
            && id in s.runOf && s.runOf[id] in s.system.runs && id in s'.tables.loads
            && var r := s.system.runs[s.runOf[id]];
               (IsPublished(s'.tables.loads[id]) <==>
                  && owner in s.system.executors && s.system.executors[owner].run == s.runOf[id]
                  && s.system.executors[owner].phase == Runs.Working
                  && r.job == job.def.key && r.status == Runs.Running && !r.cancel
                  && Accepts(job.h, job.def, load.contract, load.system.load)
                  && !Superseded(job, s.tables, id))
  {
    hide P.Run, Accepts, Covers, SlotsOf, Superseded, IsPublished, Promote, Runs.Step, Inv, RunInvariants.Inv, P.Inv,
         P.Step;
    PromotedTables(catalog, job, s, id, owner, heard);
    P.RunKeeps(catalog, job, events);
    P.InvParts(catalog, job, s);
    assert P.LoadOk(s, id);
    var run := s.runOf[id];
    TablesReachable(catalog, job, events);
    var tables :| s.tables == Run(job, tables);
    if owner in s.system.executors {
      OwnerOk(catalog, s.system, owner);
      PromotionOutcome(job, tables, s.tables, id, P.FenceOf(catalog, s, id, owner));
      P.OnlyPublishedChanges(job, s.tables, id, P.FenceOf(catalog, s, id, owner));
    }
  }

  lemma PromotedTables(catalog: Runs.Catalog, job: Job, s: P.State, id: LoadId, owner: Runs.Owner, heard: bool)
    ensures P.Step(catalog, job, s, P.EPromote(id, owner, heard)).tables ==
            if !P.WorksOn(job, s, owner) then s.tables
            else
              var (tables, outcome) := Promote(job, s.tables, id, P.FenceOf(catalog, s, id, owner));
              if outcome in {Published, Replayed} then tables else s.tables
  {
    hide Promote, Runs.Step, P.WorksOn, P.FenceOf;
  }

  lemma OwnerOk(catalog: Runs.Catalog, s: Runs.System, owner: Runs.Owner)
    requires RunInvariants.Inv(catalog, s) && owner in s.executors
    ensures var x := s.executors[owner]; x.run in s.runs && s.runs[x.run].owner == Some(owner)
  {
    assert RunInvariants.ExecutorOk(catalog, s, owner);
  }

  /** What an event of both does to the loads. */
  function TableEvent(catalog: Runs.Catalog, s: P.State, e: P.Event): Event
    requires !e.ERuns?
  {
    match e
    case EBegin(_, contract, keys, members) => EBegin(contract, keys, members)
    case ELoads(event) => event
    case EPromote(load, owner, _) =>
      EPromote(load, if owner in s.system.executors then P.FenceOf(catalog, s, load, owner) else Unfenced)
  }

  /** The tables of a combined run are those of a run of the loads alone. */
  lemma {:induction false} TablesReachable(catalog: Runs.Catalog, job: Job, events: seq<P.Event>)
    ensures exists tables :: P.Run(catalog, job, events).tables == Run(job, tables)
  {
    hide Step, Runs.Step, Promote;
    if events == [] {
      assert P.Run(catalog, job, events).tables == Run(job, []);
    } else {
      var before, e := events[..|events| - 1], events[|events| - 1];
      TablesReachable(catalog, job, before);
      var s := P.Run(catalog, job, before);
      var tables :| s.tables == Run(job, tables);
      var s' := P.Step(catalog, job, s, e);
      if s'.tables == s.tables {
        assert s'.tables == Run(job, tables);
      } else {
        var step := TableEvent(catalog, s, e);
        if e.EPromote? && e.executor in s.system.executors {
          P.PromoteIsStep(job, s.tables, e.load, P.FenceOf(catalog, s, e.load, e.executor));
        }
        assert (tables + [step])[..|tables + [step]| - 1] == tables;
        assert s'.tables == Run(job, tables + [step]);
      }
    }
  }
}
