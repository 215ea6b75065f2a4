/** Cutting a date range into source requests (internal/ingestion/fixed.go). */
module Chunks {
  import opened Options
  import opened Calendar

  datatype DateChunk = DateChunk(from: CalendarDate, to: CalendarDate)
  datatype RequestMode = ExactInterval | BoundedDateChunks | UnknownMode
  datatype PublicationMode = DateAddressable | IntervalResult

  datatype Definition = Definition(
    key: string,
    snapshotDate: bool,
    maxChunkDays: int,
    publication: PublicationMode,
    requests: RequestMode)

  const DEFAULT_CHUNK_DAYS: nat := 30
  const MAX_CHUNK_DAYS: nat := 30

  /** The consecutive pieces of `days` days each, the last one shorter if need be. */
  function Cut(from: CalendarDate, to: CalendarDate, days: nat): (r: seq<DateChunk>)
    requires IsCivil(from) && IsCivil(to) && Ordinal(from) <= Ordinal(to) && days >= 1
    ensures r != []
    decreases Ordinal(to) - Ordinal(from)
  {
    if Ordinal(to) - Ordinal(from) < days then [DateChunk(from, to)]
    else
      AddDaysAdds(from, days);
      [DateChunk(from, AddDays(from, days - 1))] + Cut(AddDays(from, days), to, days)
  }

  predicate Covers(c: DateChunk, d: CalendarDate) {
    Ordinal(c.from) <= Ordinal(d) <= Ordinal(c.to)
  }

  predicate Bounded(c: DateChunk, days: nat) {
    IsCivil(c.from) && IsCivil(c.to) && Ordinal(c.from) <= Ordinal(c.to) < Ordinal(c.from) + days
  }

  /** A full chunk and the one that starts the day after it. */
  predicate Meets(chunks: seq<DateChunk>, k: nat, days: nat)
    requires k + 1 < |chunks|
  {
    && Ordinal(chunks[k + 1].from) == Ordinal(chunks[k].to) + 1
    && Ordinal(chunks[k].to) == Ordinal(chunks[k].from) + days - 1
  }

  /** A tiling of [from, to]: no gap, no overlap, at most `days` days each, and only the last may be shorter. */
  ghost predicate Tiles(chunks: seq<DateChunk>, from: CalendarDate, to: CalendarDate, days: nat) {
    && chunks != []
    && chunks[0].from == from
    && chunks[|chunks| - 1].to == to
    && (forall c <- chunks :: Bounded(c, days))
    && (forall k: nat {:trigger Meets(chunks, k, days)} | k + 1 < |chunks| :: Meets(chunks, k, days))
  }

  lemma {:induction false} AddDaysNext(d: CalendarDate, n: nat)
    requires IsCivil(d)
    ensures AddDays(d, n + 1) == Next(AddDays(d, n))
    decreases n
  {
    if n > 0 { AddDaysNext(Next(d), n - 1); }
  }

  lemma {:induction false} CutTiles(from: CalendarDate, to: CalendarDate, days: nat)
    requires IsCivil(from) && IsCivil(to) && Ordinal(from) <= Ordinal(to) && days >= 1
    ensures Tiles(Cut(from, to, days), from, to, days)
    decreases Ordinal(to) - Ordinal(from)
  {
    if Ordinal(to) - Ordinal(from) >= days {
      AddDaysAdds(from, days);
      AddDaysAdds(from, days - 1);
      CutTiles(AddDays(from, days), to, days);
      PrependTiles(DateChunk(from, AddDays(from, days - 1)), Cut(AddDays(from, days), to, days), AddDays(from, days), to, days);
    }
  }

  lemma PrependTiles(first: DateChunk, rest: seq<DateChunk>, next: CalendarDate, to: CalendarDate, days: nat)
    requires Tiles(rest, next, to, days) && Bounded(first, days)
    requires Ordinal(next) == Ordinal(first.to) + 1 && Ordinal(first.to) == Ordinal(first.from) + days - 1
    ensures Tiles([first] + rest, first.from, to, days)
  {
    hide Ordinal, IsCivil;
    var all := [first] + rest;
    forall k: nat | k + 1 < |all| ensures Meets(all, k, days) {
      if k > 0 { assert Meets(rest, k - 1, days); }
    }
  }

  lemma SameDay(a: CalendarDate, b: CalendarDate)
    requires IsCivil(a) && IsCivil(b) && Ordinal(a) == Ordinal(b)
    ensures a == b
  {
    BeforeIsOrdinal(a, b);
  }

  /** There is only one tiling. */
  lemma {:induction false} TilingIsCut(chunks: seq<DateChunk>, from: CalendarDate, to: CalendarDate, days: nat)
    requires IsCivil(from) && IsCivil(to) && Ordinal(from) <= Ordinal(to) && days >= 1
    requires Tiles(chunks, from, to, days)
    ensures chunks == Cut(from, to, days)
    decreases |chunks|
  {
    hide Ordinal, IsCivil, AddDays;
    assert Bounded(chunks[0], days);
    if |chunks| > 1 {
      LaterEnds(chunks, from, to, days, |chunks| - 1);
      assert Bounded(chunks[|chunks| - 1], days) && Bounded(chunks[1], days);
      var rest := chunks[1..];
      AddDaysAdds(from, days);
      AddDaysAdds(from, days - 1);
      assert Meets(chunks, 0, days);
      SameDay(chunks[0].to, AddDays(from, days - 1));
      SameDay(chunks[1].from, AddDays(from, days));
      forall k: nat | k + 1 < |rest| ensures Meets(rest, k, days) { assert Meets(chunks, k + 1, days); }
      TilingIsCut(rest, AddDays(from, days), to, days);
      assert chunks == [chunks[0]] + rest;
    }
  }

  lemma {:induction false} LaterEnds(chunks: seq<DateChunk>, from: CalendarDate, to: CalendarDate, days: nat, k: nat)
    requires Tiles(chunks, from, to, days) && 0 < k < |chunks|
    ensures Ordinal(chunks[k].from) >= Ordinal(from) + days
  {
    assert Meets(chunks, k - 1, days);
    if k > 1 { LaterEnds(chunks, from, to, days, k - 1); }
  }

  /** Each date of the range is requested once. */
  lemma {:induction false} DateInOneChunk(from: CalendarDate, to: CalendarDate, days: nat, d: CalendarDate) returns (k: nat)
    requires IsCivil(from) && IsCivil(to) && Ordinal(from) <= Ordinal(to) && days >= 1
    requires IsCivil(d) && Ordinal(from) <= Ordinal(d) <= Ordinal(to)
    ensures k < |Cut(from, to, days)|
    ensures forall j | 0 <= j < |Cut(from, to, days)| :: Covers(Cut(from, to, days)[j], d) <==> j == k
    decreases Ordinal(to) - Ordinal(from)
  {
    var all := Cut(from, to, days);
    if Ordinal(to) - Ordinal(from) < days {
      return 0;
    }
    AddDaysAdds(from, days);
    AddDaysAdds(from, days - 1);
    var rest := Cut(AddDays(from, days), to, days);
    assert all == [DateChunk(from, AddDays(from, days - 1))] + rest;
    if Ordinal(d) < Ordinal(from) + days {
      CutTiles(from, to, days);
      forall j | 0 < j < |all| ensures !Covers(all[j], d) { LaterEnds(all, from, to, days, j); }
      return 0;
    }
    k := DateInOneChunk(AddDays(from, days), to, days, d);
    forall j | 0 < j < |all| ensures Covers(all[j], d) <==> j == k + 1 { assert all[j] == rest[j - 1]; }
    k := k + 1;
  }

  predicate Dated(d: CalendarDate) { IsZero(d) || InRange(d) }

  /** What the request planner promises: a tiling, or an error when there is no range. */
  function ChunksOf(from: CalendarDate, to: CalendarDate, maxDays: int): Option<seq<DateChunk>>
    requires Dated(from) && Dated(to)
  {
    if IsZero(from) || IsZero(to) || Ordinal(to) < Ordinal(from) then None
    else Some(Cut(from, to, if maxDays <= 0 then DEFAULT_CHUNK_DAYS else maxDays))
  }

  lemma NotAfter(a: CalendarDate, b: CalendarDate)
    requires InRange(a) && InRange(b)
    ensures AtMost(String(a), String(b)) <==> Ordinal(a) <= Ordinal(b)
    ensures Less(String(b), String(a)) <==> Ordinal(b) < Ordinal(a)
  {
    TextOrder(a, b);
    TextOrder(b, a);
    BeforeIsOrdinal(a, b);
    BeforeIsOrdinal(b, a);
  }

  lemma LaterYear(a: CalendarDate, b: CalendarDate)
    requires IsCivil(a) && IsCivil(b) && a.year > b.year
    ensures Ordinal(a) > Ordinal(b)
  {
    BeforeIsOrdinal(b, a);
  }

  /** One round of the loop, whose end is a full chunk's or, past the range, the range's own. */
  lemma ChunkRound(start: CalendarDate, to: CalendarDate, days: nat)
    requires InRange(start) && InRange(to) && Ordinal(start) <= Ordinal(to) && days >= 1
    ensures var end := AddDays(start, days - 1);
            && (end.year > to.year || Less(String(to), String(end)) <==> Ordinal(end) > Ordinal(to))
            && (end == to <==> Ordinal(end) == Ordinal(to))
            && (Ordinal(end) >= Ordinal(to) ==> Cut(start, to, days) == [DateChunk(start, to)])
  {
    var end := AddDays(start, days - 1);
    AddDaysAdds(start, days - 1);
    BeforeIsOrdinal(end, to);
    if end.year > to.year { LaterYear(end, to); } else { NotAfter(end, to); }
  }

  lemma FullRound(start: CalendarDate, to: CalendarDate, days: nat)
    requires InRange(start) && InRange(to) && days >= 1
    requires Ordinal(start) <= Ordinal(AddDays(start, days - 1)) < Ordinal(to)
    ensures var end := AddDays(start, days - 1);
            && InRange(AddDays(end, 1))
            && Ordinal(start) < Ordinal(AddDays(end, 1)) <= Ordinal(to)
            && AtMost(String(AddDays(end, 1)), String(to))
            && Cut(start, to, days) == [DateChunk(start, end)] + Cut(AddDays(end, 1), to, days)
  {
    var end := AddDays(start, days - 1);
    var next := AddDays(start, days);
    AddDaysAdds(start, days - 1);
    AddDaysAdds(start, days);
    AddDaysNext(start, days - 1);
    assert AddDays(end, 1) == AddDays(Next(end), 0) == next;
    if next.year > to.year { LaterYear(next, to); }
    NotAfter(next, to);
  }

  /** The program compares texts, which agree with the calendar up to 9999 only; its year test covers the rest. */
  method ChunkDateRange(from: CalendarDate, to: CalendarDate, maxDays: int) returns (r: Option<seq<DateChunk>>)
    requires Dated(from) && Dated(to)
    ensures r == ChunksOf(from, to, maxDays)
  {
    hide Ordinal, String, Less, AtMost, AddDays, DaysIn, Cut;
    if IsZero(from) || IsZero(to) { return None; }
    NotAfter(from, to);
    if Less(String(to), String(from)) { return None; }
    var days: nat := if maxDays <= 0 then DEFAULT_CHUNK_DAYS else maxDays;
    var chunks: seq<DateChunk> := [];
    var start := from;
    while AtMost(String(start), String(to))
      invariant InRange(start) && Ordinal(start) <= Ordinal(to) && AtMost(String(start), String(to))
      invariant chunks + Cut(start, to, days) == Cut(from, to, days)
      decreases Ordinal(to) - Ordinal(start)
    {
      var end := AddDays(start, days - 1);
      ChunkRound(start, to, days);
      if end.year > to.year || Less(String(to), String(end)) { end := to; }
      chunks := chunks + [DateChunk(start, end)];
      if end == to { break; }
      AddDaysAdds(start, days - 1);
      FullRound(start, to, days);
      start := AddDays(end, 1);
    }
    return Some(chunks);
  }

  predicate InYears(d: CalendarDate) { FIRST_YEAR <= d.year <= LAST_YEAR }

  function SourceChunks(definition: Definition, from: CalendarDate, to: CalendarDate): Option<seq<DateChunk>>
    requires Dated(from) && Dated(to)
  {
    if !InYears(from) || !InYears(to) || Ordinal(to) < Ordinal(from) then None
    else if definition.snapshotDate && from != to then None
    else match definition.requests
      case ExactInterval => Some([DateChunk(from, to)])
      case BoundedDateChunks =>
        if definition.maxChunkDays < 1 || definition.maxChunkDays > MAX_CHUNK_DAYS then None
        else ChunksOf(from, to, definition.maxChunkDays)
      case UnknownMode => None
  }

  method FixedSourceChunks(definition: Definition, from: CalendarDate, to: CalendarDate) returns (r: Option<seq<DateChunk>>)
    requires Dated(from) && Dated(to)
    ensures r == SourceChunks(definition, from, to)
  {
    if from.year < FIRST_YEAR || from.year > LAST_YEAR || to.year < FIRST_YEAR || to.year > LAST_YEAR { return None; }
    NotAfter(from, to);
    if Less(String(to), String(from)) { return None; }
    if definition.snapshotDate && from != to { return None; }
    match definition.requests
    case ExactInterval => return Some([DateChunk(from, to)]);
    case BoundedDateChunks =>
      if definition.maxChunkDays < 1 || definition.maxChunkDays > MAX_CHUNK_DAYS { return None; }
      r := ChunkDateRange(from, to, definition.maxChunkDays);
    case UnknownMode => return None;
  }

  function Span(definition: Definition, from: CalendarDate, to: CalendarDate): nat {
    if definition.requests == ExactInterval then Ordinal(to) + 1
    else if definition.maxChunkDays < 1 then 1
    else definition.maxChunkDays
  }

  /** An accepted plan is the one tiling of the range: bounded by the definition's limit, or a single interval. */
  lemma SourceChunksTile(definition: Definition, from: CalendarDate, to: CalendarDate)
    requires Dated(from) && Dated(to)
    ensures var r := SourceChunks(definition, from, to);
            r.Some? ==>
              && Tiles(r.value, from, to, Span(definition, from, to))
              && (definition.requests == ExactInterval ==> |r.value| == 1)
              && (definition.requests == BoundedDateChunks ==> Span(definition, from, to) == definition.maxChunkDays <= 30)
  {
    if SourceChunks(definition, from, to).Some? && definition.requests == BoundedDateChunks {
      CutTiles(from, to, definition.maxChunkDays);
    }
  }

  /** The program's day loops stop by equality with the last day, since at the end of 9999 the texts no longer do. */
  method CountDays(from: CalendarDate, to: CalendarDate) returns (count: nat)
    requires InRange(from) && InRange(to)
    ensures count == if Ordinal(from) <= Ordinal(to) then Ordinal(to) - Ordinal(from) + 1 else 0
  {
    count := 0;
    var d := from;
    NotAfter(from, to);
    while AtMost(String(d), String(to))
      invariant InRange(d) && (AtMost(String(d), String(to)) <==> Ordinal(d) <= Ordinal(to))
      invariant Ordinal(d) <= Ordinal(to) ==> Ordinal(d) == Ordinal(from) + count
      invariant Ordinal(to) < Ordinal(d) ==> count == 0 && d == from
      decreases Ordinal(to) - Ordinal(d)
    {
      count := count + 1;
      if String(d) == String(to) {
        TextOrder(d, to);
        break;
      }
      TextOrder(d, to);
      BeforeIsOrdinal(d, to);
      NextIsSuccessor(d);
      d := AddDays(d, 1);
      if d.year > to.year { LaterYear(d, to); }
      NotAfter(d, to);
    }
  }
}
