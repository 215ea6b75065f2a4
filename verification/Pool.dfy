/** The Detail and Fixed worker pools (internal/ingestionexec/executor.go). */
module Pool {
  // A feeder hands items over an unbuffered channel, workers send one result per item over a buffered one, and a
  // collector counts the results and cancels on the first fatal one. The two pools differ in their collectors alone.

  import opened Options

  type Item = nat

  /** How the work on an item ended; Suppressed is an error that only reports the pool's own cancellation. */
  datatype Ending = Ok(rows: nat) | Local | Fatal | Suppressed
  datatype Result = Result(item: Item, ending: Ending)

  datatype Worker = Idle | Working(item: Item) | Sending(result: Result) | Exited

  /** The Detail collector goes on after a local failure; the Fixed one cancels on every error. */
  datatype Collector = Detail | Fixed

  /** What the collector met: a result, and whether its diagnostics and progress could be recorded. */
  datatype Met = Met(result: Result, recorded: bool, flushed: bool)

  datatype Failure = ItemFailure(item: Item) | ProgressFailure

  datatype Outcome = Outcome(
    started: nat, succeeded: nat, failed: nat, suppressed: nat, rows: nat,
    firstLocal: Option<Item>, fatal: Option<Failure>, flushing: bool, progressLost: bool)

  const NoOutcome := Outcome(0, 0, 0, 0, 0, None, None, true, false)

  datatype State = State(
    collector: Collector,
    items: nat,
    capacity: nat,
    next: Item,
    fed: bool,
    workers: seq<Worker>,
    buffer: seq<Result>,
    closed: bool,
    cancelled: bool,
    met: seq<Met>,
    outcome: Outcome,
    done: bool)

  function Min(a: nat, b: nat): nat { if a < b then a else b }

  function Initial(collector: Collector, items: nat, capacity: nat): State {
    State(collector, items, capacity, 0, false, seq(Min(capacity, items), _ => Idle), [], false, false, [], NoOutcome, false)
  }

  /** The collector's round for one result; the second part says whether it cancels the pool. */
  function Collect(collector: Collector, o: Outcome, m: Met): (Outcome, bool) {
    match collector
    case Detail => CollectDetail(o, m)
    case Fixed => CollectFixed(o, m)
  }

  /** Progress is persisted after every result; losing ownership there cancels, and so does any error. */
  function CollectFixed(o: Outcome, m: Met): (Outcome, bool) {
    var o1 := o.(started := o.started + 1, progressLost := o.progressLost || !m.flushed);
    match m.result.ending
    case Suppressed => (o1.(suppressed := o.suppressed + 1), true)
    case Ok(rows) => (o1.(succeeded := o.succeeded + 1, rows := o.rows + rows), !m.flushed)
    case _ =>
      (o1.(failed := o.failed + 1, fatal := if o.fatal.None? then Some(ItemFailure(m.result.item)) else o.fatal), true)
  }

  function CollectDetail(o: Outcome, m: Met): (Outcome, bool) {
    var o1 := o.(started := o.started + 1);
    match m.result.ending
    case Suppressed => (o1.(suppressed := o.suppressed + 1), false)
    case Ok(rows) => Flush(o1.(succeeded := o.succeeded + 1, rows := o.rows + rows), m, false)
    case Local =>
      var o2 := o1.(failed := o.failed + 1, firstLocal := if o.firstLocal.None? then Some(m.result.item) else o.firstLocal);
      if !m.recorded && o2.fatal.None? then Flush(o2.(fatal := Some(ProgressFailure), flushing := false), m, true)
      else Flush(o2, m, false)
    case Fatal =>
      Flush(o1.(failed := o.failed + 1, fatal := if o.fatal.None? then Some(ItemFailure(m.result.item)) else o.fatal), m, true)
  }

  function Flush(o: Outcome, m: Met, cancels: bool): (Outcome, bool) {
    if !o.flushing || m.flushed then (o, cancels)
    else (o.(fatal := if o.fatal.None? then Some(ProgressFailure) else o.fatal, flushing := false), true)
  }

  datatype Event =
    | EDispatch(worker: nat)
    | EFeederEnds
    | EFinish(worker: nat, ending: Ending)
    | ESend(worker: nat)
    | EExit(worker: nat)
    | EClose
    | ECollect(recorded: bool, flushed: bool)
    | EDone
    | ECancel

  predicate AllExited(s: State) {
    forall w | 0 <= w < |s.workers| :: s.workers[w] == Exited
  }

  predicate Enabled(s: State, e: Event) {
    match e
    case EDispatch(w) => w < |s.workers| && s.workers[w] == Idle && !s.fed && s.next < s.items
    case EFeederEnds => !s.fed && (s.next == s.items || s.cancelled)
    case EFinish(w, ending) => w < |s.workers| && s.workers[w].Working? && (ending == Suppressed ==> s.cancelled)
    case ESend(w) => w < |s.workers| && s.workers[w].Sending? && |s.buffer| < s.capacity
    case EExit(w) => w < |s.workers| && s.workers[w] == Idle && s.fed
    case EClose => !s.closed && AllExited(s)
    case ECollect(_, _) => s.buffer != [] && !s.done
    case EDone => s.closed && s.buffer == [] && !s.done
    case ECancel => !s.cancelled
  }

  function Step(s: State, e: Event): State {
    if Enabled(s, e) then Perform(s, e) else s
  }

  function Perform(s: State, e: Event): State
    requires Enabled(s, e)
  {
    match e
    case EDispatch(w) => s.(workers := s.workers[w := Working(s.next)], next := s.next + 1)
    case EFeederEnds => s.(fed := true)
    case EFinish(w, ending) => s.(workers := s.workers[w := Sending(Result(s.workers[w].item, ending))])
    case ESend(w) => s.(workers := s.workers[w := Idle], buffer := s.buffer + [s.workers[w].result])
    case EExit(w) => s.(workers := s.workers[w := Exited])
    case EClose => s.(closed := true)
    case ECollect(recorded, flushed) =>
      var m := Met(s.buffer[0], recorded, flushed);
      var (outcome, cancels) := Collect(s.collector, s.outcome, m);
      s.(buffer := s.buffer[1..], met := s.met + [m], outcome := outcome, cancelled := s.cancelled || cancels)
    case EDone => s.(done := true)
    case ECancel => s.(cancelled := true)
  }

  function Run(collector: Collector, items: nat, capacity: nat, events: seq<Event>): State {
    if events == [] then Initial(collector, items, capacity)
    else Step(Run(collector, items, capacity, events[..|events| - 1]), events[|events| - 1])
  }

  // ---------------------------------------------------------------------------------------------------------
  // The invariant
  // ---------------------------------------------------------------------------------------------------------

  /** How often workers hold an item. */
  function Held(workers: seq<Worker>, item: Item): nat {
    if workers == [] then 0 else Held(workers[..|workers| - 1], item) + HeldBy(workers[|workers| - 1], item)
  }

  function HeldBy(w: Worker, item: Item): nat {
    match w
    case Working(i) => if i == item then 1 else 0
    case Sending(r) => if r.item == item then 1 else 0
    case _ => 0
  }

  function Among(results: seq<Result>, item: Item): nat {
    if results == [] then 0
    else Among(results[..|results| - 1], item) + if results[|results| - 1].item == item then 1 else 0
  }

  function Results(met: seq<Met>): seq<Result> {
    seq(|met|, k requires 0 <= k < |met| => met[k].result)
  }

  /** An item handed out is with a worker, in the buffer or consumed, once; no other item is anywhere. */
  ghost predicate Once(s: State, item: Item) {
    Among(Results(s.met), item) + Among(s.buffer, item) + Held(s.workers, item) == if item < s.next then 1 else 0
  }

  datatype Kind = Good | Bad | Hidden

  function KindOf(ending: Ending): Kind {
    match ending
    case Ok(_) => Good
    case Suppressed => Hidden
    case _ => Bad
  }

  function Count(met: seq<Met>, kind: Kind): nat {
    if met == [] then 0
    else Count(met[..|met| - 1], kind) + if KindOf(met[|met| - 1].result.ending) == kind then 1 else 0
  }

  /** What makes a met result fatal, if anything. */
  function Raised(collector: Collector, m: Met): Option<Failure> {
    match m.result.ending
    case Suppressed => None
    case Fatal => Some(ItemFailure(m.result.item))
    case Local =>
      if collector == Fixed then Some(ItemFailure(m.result.item))
      else if !m.recorded || !m.flushed then Some(ProgressFailure)
      else None
    case Ok(_) => if collector == Detail && !m.flushed then Some(ProgressFailure) else None
  }

  function FirstRaised(collector: Collector, met: seq<Met>): Option<Failure> {
    if met == [] then None
    else
      var before := FirstRaised(collector, met[..|met| - 1]);
      if before.Some? then before else Raised(collector, met[|met| - 1])
  }

  /** The rows of the results that succeeded. */
  function RowTotal(met: seq<Met>): nat {
    if met == [] then 0
    else
      var ending := met[|met| - 1].result.ending;
      RowTotal(met[..|met| - 1]) + if ending.Ok? then ending.rows else 0
  }

  /** The first item that failed without ending the Detail pool; the Fixed one ends on every failure. */
  function FirstLocal(collector: Collector, met: seq<Met>): Option<Item> {
    if met == [] || collector == Fixed then None
    else
      var before, last := FirstLocal(collector, met[..|met| - 1]), met[|met| - 1].result;
      if before.None? && last.ending == Local then Some(last.item) else before
  }

  ghost predicate Counted(collector: Collector, met: seq<Met>, o: Outcome) {
    && o.started == |met|
    && o.succeeded == Count(met, Good)
    && o.failed == Count(met, Bad)
    && o.suppressed == Count(met, Hidden)
    && o.rows == RowTotal(met)
    && o.firstLocal == FirstLocal(collector, met)
    && o.fatal == FirstRaised(collector, met)
    && (o.fatal.None? ==> o.flushing)
    && (o.progressLost <==> collector == Fixed && exists m <- met :: !m.flushed)
  }

  ghost predicate Inv(s: State) {
    && s.capacity >= 1
    && |s.workers| == Min(s.capacity, s.items)
    && s.next <= s.items
    && |s.buffer| <= s.capacity
    && (s.fed ==> s.next == s.items || s.cancelled)
    && (forall w | 0 <= w < |s.workers| :: s.workers[w] == Exited ==> s.fed)
    && (s.closed ==> AllExited(s) && (s.fed || s.items == 0))
    && (s.done ==> s.closed && s.buffer == [])
    && (s.outcome.fatal.Some? || s.outcome.progressLost ==> s.cancelled)
    && (!s.cancelled ==> s.outcome.suppressed == 0 && NoneSuppressed(s))
    && (forall item {:trigger Once(s, item)} :: Once(s, item))
    && Counted(s.collector, s.met, s.outcome)
  }

  ghost predicate NoneSuppressed(s: State) {
    && (forall r <- s.buffer :: r.ending != Suppressed)
    && (forall w <- s.workers :: w.Sending? ==> w.result.ending != Suppressed)
  }

  lemma {:induction false} HeldUpdate(workers: seq<Worker>, w: nat, x: Worker, item: Item)
    requires w < |workers|
    ensures Held(workers[w := x], item) + HeldBy(workers[w], item) == Held(workers, item) + HeldBy(x, item)
  {
    var n := |workers| - 1;
    if w == n {
      assert workers[w := x][..n] == workers[..n];
    } else {
      assert workers[w := x][..n] == workers[..n][w := x];
      HeldUpdate(workers[..n], w, x, item);
    }
  }

  lemma {:induction false} HeldNothing(workers: seq<Worker>, item: Item)
    requires forall w | 0 <= w < |workers| :: workers[w] == Idle || workers[w] == Exited
    ensures Held(workers, item) == 0
  {
    if workers != [] { HeldNothing(workers[..|workers| - 1], item); }
  }

  lemma {:induction false} AmongFirst(results: seq<Result>, item: Item)
    requires results != []
    ensures Among(results, item) == Among(results[1..], item) + if results[0].item == item then 1 else 0
  {
    if |results| > 1 {
      var n := |results| - 1;
      AmongFirst(results[..n], item);
      assert results[1..][..n - 1] == results[..n][1..];
    } else {
      assert results[..0] == [] && results[1..] == [];
    }
  }

  lemma AmongLast(results: seq<Result>, r: Result, item: Item)
    ensures Among(results + [r], item) == Among(results, item) + if r.item == item then 1 else 0
  {
    assert (results + [r])[..|results + [r]| - 1] == results;
  }

  lemma CollectCounts(collector: Collector, met: seq<Met>, o: Outcome, m: Met)
    requires Counted(collector, met, o)
    ensures Counted(collector, met + [m], Collect(collector, o, m).0)
    ensures var (o', cancels) := Collect(collector, o, m);
            o'.fatal.Some? || o'.progressLost ==> o.fatal.Some? || o.progressLost || cancels
  {
    assert (met + [m])[..|met + [m]| - 1] == met;
  }

  lemma ItemKept(s: State, e: Event, item: Item)
    requires Enabled(s, e) && Once(s, item)
    ensures Once(Perform(s, e), item)
  {
    hide Collect, Held, Among;
    match e
    case EDispatch(w) => HeldUpdate(s.workers, w, Working(s.next), item);
    case EFinish(w, ending) => HeldUpdate(s.workers, w, Sending(Result(s.workers[w].item, ending)), item);
    case ESend(w) =>
      HeldUpdate(s.workers, w, Idle, item);
      AmongLast(s.buffer, s.workers[w].result, item);
    case EExit(w) => HeldUpdate(s.workers, w, Exited, item);
    case ECollect(recorded, flushed) =>
      var m := Met(s.buffer[0], recorded, flushed);
      AmongFirst(s.buffer, item);
      assert Results(s.met + [m]) == Results(s.met) + [m.result];
      AmongLast(Results(s.met), m.result, item);
    case _ =>
  }

  lemma StepKeeps(s: State, e: Event)
    requires Inv(s)
    ensures Inv(Step(s, e))
  {
    hide Counted, Collect, Once;
    if Enabled(s, e) {
      forall item ensures Once(Step(s, e), item) {
        assert Once(s, item);
        ItemKept(s, e, item);
      }
      if e.ECollect? {
        var m := Met(s.buffer[0], e.recorded, e.flushed);
        CollectCounts(s.collector, s.met, s.outcome, m);
        SuppressedOnly(s.collector, s.outcome, m);
        assert m.result in s.buffer;
      } else if e.EClose? && s.items > 0 {
        assert s.workers[0] == Exited;
      }
    }
  }

  lemma SuppressedOnly(collector: Collector, o: Outcome, m: Met)
    ensures Collect(collector, o, m).0.suppressed == o.suppressed + if m.result.ending == Suppressed then 1 else 0
  {
  }

  lemma InitialInv(collector: Collector, items: nat, capacity: nat)
    requires capacity >= 1
    ensures var s := Initial(collector, items, capacity); Inv(s) && s.items == items && s.collector == collector
  {
    forall item ensures Once(Initial(collector, items, capacity), item) {
      HeldNothing(Initial(collector, items, capacity).workers, item);
      assert Results([]) == [];
    }
  }

  lemma {:induction false} RunKeeps(collector: Collector, items: nat, capacity: nat, events: seq<Event>)
    requires capacity >= 1
    ensures var s := Run(collector, items, capacity, events); Inv(s) && s.items == items && s.collector == collector
  {
    hide Inv, Enabled, Initial;
    if events == [] {
      InitialInv(collector, items, capacity);
    } else {
      RunKeeps(collector, items, capacity, events[..|events| - 1]);
      StepKeeps(Run(collector, items, capacity, events[..|events| - 1]), events[|events| - 1]);
    }
  }

  // ---------------------------------------------------------------------------------------------------------
  // Results
  // ---------------------------------------------------------------------------------------------------------

  /** Until the collector is done, some step other than a cancellation is possible: the pool cannot deadlock. */
  lemma NeverStuck(collector: Collector, items: nat, capacity: nat, events: seq<Event>, s: State) returns (e: Event)
    requires capacity >= 1 && s == Run(collector, items, capacity, events) && !s.done
    ensures !e.ECancel? && Enabled(s, e)
  {
    RunKeeps(collector, items, capacity, events);
    if s.buffer != [] { return ECollect(true, true); }
    if s.closed { return EDone; }
    if w: nat :| w < |s.workers| && s.workers[w].Working? { return EFinish(w, Ok(0)); }
    if w: nat :| w < |s.workers| && s.workers[w].Sending? { return ESend(w); }
    if !s.fed {
      if s.next == s.items { return EFeederEnds; }
      assert s.workers[0] == Idle;
      return EDispatch(0);
    }
    if w: nat :| w < |s.workers| && s.workers[w] == Idle { return EExit(w); }
    return EClose;
  }

  function Load(w: Worker): nat {
    match w
    case Idle => 1
    case Working(_) => 4
    case Sending(_) => 3
    case Exited => 0
  }

  function Loads(workers: seq<Worker>): nat {
    if workers == [] then 0 else Loads(workers[..|workers| - 1]) + Load(workers[|workers| - 1])
  }

  lemma {:induction false} LoadsUpdate(workers: seq<Worker>, w: nat, x: Worker)
    requires w < |workers|
    ensures Loads(workers[w := x]) + Load(workers[w]) == Loads(workers) + Load(x)
  {
    var n := |workers| - 1;
    if w == n {
      assert workers[w := x][..n] == workers[..n];
    } else {
      assert workers[w := x][..n] == workers[..n][w := x];
      LoadsUpdate(workers[..n], w, x);
    }
  }

  function Bit(b: bool): nat { if b then 0 else 1 }

  /** What is left to do. */
  function Remaining(s: State): nat {
    4 * (if s.next < s.items then s.items - s.next else 0) + Loads(s.workers) + |s.buffer|
    + Bit(s.fed) + Bit(s.closed) + Bit(s.done) + Bit(s.cancelled)
  }

  /** Every step leaves less to do, so every run ends. */
  lemma EveryStepProgresses(collector: Collector, items: nat, capacity: nat, events: seq<Event>, s: State, e: Event)
    requires capacity >= 1 && s == Run(collector, items, capacity, events) && Enabled(s, e)
    ensures Remaining(Step(s, e)) < Remaining(s)
  {
    RunKeeps(collector, items, capacity, events);
    EveryStepLowers(s, e);
  }

  lemma EveryStepLowers(s: State, e: Event)
    requires Enabled(s, e) && (e.EDone? ==> !s.done) && s.next <= s.items
    ensures Remaining(Perform(s, e)) < Remaining(s)
  {
    hide Loads, Collect;
    match e
    case EDispatch(w) => LoadsUpdate(s.workers, w, Working(s.next));
    case EFinish(w, ending) => LoadsUpdate(s.workers, w, Sending(Result(s.workers[w].item, ending)));
    case ESend(w) => LoadsUpdate(s.workers, w, Idle);
    case EExit(w) => LoadsUpdate(s.workers, w, Exited);
    case _ =>
  }

  lemma {:induction false} CountsAdd(met: seq<Met>)
    ensures Count(met, Good) + Count(met, Bad) + Count(met, Hidden) == |met|
  {
    if met != [] { CountsAdd(met[..|met| - 1]); }
  }

  /** No item is worked on or consumed twice, and the counters always add up. */
  lemma EachItemOnce(collector: Collector, items: nat, capacity: nat, events: seq<Event>, s: State, item: Item)
    requires capacity >= 1 && s == Run(collector, items, capacity, events)
    ensures Among(Results(s.met), item) + Among(s.buffer, item) + Held(s.workers, item) == if item < s.next then 1 else 0
    ensures s.outcome.started == s.outcome.succeeded + s.outcome.failed + s.outcome.suppressed == |s.met|
    ensures s.outcome.succeeded == Count(s.met, Good) && s.outcome.failed == Count(s.met, Bad)
    ensures s.outcome.rows == RowTotal(s.met)
    ensures s.outcome.fatal == FirstRaised(collector, s.met) && s.outcome.firstLocal == FirstLocal(collector, s.met)
  {
    RunKeeps(collector, items, capacity, events);
    assert Once(s, item);
    CountsAdd(s.met);
  }

  /** At the end each item handed out was consumed once; without cancellation that is every item. */
  lemma AllConsumed(collector: Collector, items: nat, capacity: nat, events: seq<Event>, s: State, item: Item)
    requires capacity >= 1 && s == Run(collector, items, capacity, events) && s.done
    ensures Among(Results(s.met), item) == if item < s.next then 1 else 0
    ensures !s.cancelled ==> s.next == items && s.outcome.fatal.None? && !s.outcome.progressLost && s.outcome.suppressed == 0
  {
    RunKeeps(collector, items, capacity, events);
    assert Once(s, item);
    HeldNothing(s.workers, item);
  }

  /** The collector's loop over what it meets until the results channel closes. */
  method CollectAll(met: seq<Met>) returns (o: Outcome, cancels: bool)
    ensures Counted(Detail, met, o)
    ensures o.fatal.Some? ==> cancels
    ensures o.started == o.succeeded + o.failed + o.suppressed
  {
    o, cancels := NoOutcome, false;
    for k := 0 to |met|
      invariant Counted(Detail, met[..k], o)
      invariant o.fatal.Some? ==> cancels
    {
      var m := met[k];
      ghost var before := o;
      CollectCounts(Detail, met[..k], before, m);
      assert met[..k + 1] == met[..k] + [m];
      o := o.(started := o.started + 1);
      if m.result.ending == Suppressed {
        o := o.(suppressed := o.suppressed + 1);
        continue;
      }
      match m.result.ending {
        case Ok(rows) => o := o.(succeeded := o.succeeded + 1, rows := o.rows + rows);
        case Local =>
          o := o.(failed := o.failed + 1);
          if o.firstLocal.None? { o := o.(firstLocal := Some(m.result.item)); }
          if !m.recorded && o.fatal.None? {
            o := o.(fatal := Some(ProgressFailure), flushing := false);
            cancels := true;
          }
        case Fatal =>
          o := o.(failed := o.failed + 1);
          if o.fatal.None? { o := o.(fatal := Some(ItemFailure(m.result.item))); }
          cancels := true;
        case Suppressed =>
      }
      if o.flushing && !m.flushed {
        if o.fatal.None? { o := o.(fatal := Some(ProgressFailure)); }
        o := o.(flushing := false);
        cancels := true;
      }
      assert o == Collect(Detail, before, m).0;
    }
    assert met[..|met|] == met;
    CountsAdd(met);
  }

  lemma NothingCounted(collector: Collector)
    ensures Counted(collector, [], NoOutcome)
  {
  }

  lemma CountedAdds(collector: Collector, met: seq<Met>, o: Outcome)
    requires Counted(collector, met, o)
    ensures o.started == o.succeeded + o.failed + o.suppressed
  {
    CountsAdd(met);
  }

  /** The Fixed executor's closure over what the pool meets, with the pool's own cancellation. */
  method ConsumeAll(met: seq<Met>) returns (o: Outcome, cancels: bool)
    ensures Counted(Fixed, met, o)
    ensures cancels <==> exists m <- met :: m.result.ending.Ok? ==> !m.flushed
    ensures o.started == o.succeeded + o.failed + o.suppressed
  {
    hide Counted, Count, FirstRaised;
    NothingCounted(Fixed);
    o, cancels := NoOutcome, false;
    for k := 0 to |met|
      invariant Counted(Fixed, met[..k], o)
      invariant cancels <==> exists m <- met[..k] :: m.result.ending.Ok? ==> !m.flushed
    {
      var m := met[k];
      ghost var before := o;
      CollectCounts(Fixed, met[..k], before, m);
      assert met[..k + 1] == met[..k] + [m];
      o := o.(started := o.started + 1);
      match m.result.ending {
        case Suppressed => o := o.(suppressed := o.suppressed + 1);
        case Ok(rows) => o := o.(succeeded := o.succeeded + 1, rows := o.rows + rows);
        case _ =>
          o := o.(failed := o.failed + 1);
          if o.fatal.None? { o := o.(fatal := Some(ItemFailure(m.result.item))); }
      }
      if !m.flushed {
        o := o.(progressLost := true);
        cancels := true;
      }
      if !m.result.ending.Ok? { cancels := true; }
      assert o == Collect(Fixed, before, m).0;
    }
    assert met[..|met|] == met;
    CountedAdds(Fixed, met, o);
  }
}
