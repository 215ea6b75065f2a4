/**
 Comparing the recorded segments of a load with its frozen plan, row by row (validateFixedSegments in
 internal/ingestionstore/fixed_contract.go).
*/
module FixedValidation {
  import opened Options
  import opened Calendar
  import opened Chunks
  import opened FixedStaging

  datatype Recorded = Recorded(id: SegmentId, stored: StoredSegment)

  /** The locked members, each once. */
  ghost predicate MembersListed(members: map<string, Member>, keys: seq<string>) {
    && (forall key :: key in keys <==> key in members)
    && (forall i: nat, j: nat | i < j < |keys| :: keys[i] != keys[j])
  }

  /** The recorded segments, each once, those of a member by index. */
  ghost predicate SegmentsListed(s: LoadState, list: seq<Recorded>) {
    && (forall r <- list :: r.id in s.segments && r.stored == s.segments[r.id])
    && (forall id <- s.segments :: Read(list, |list|, id))
    && (forall i: nat, j: nat | i < j < |list| ::
          list[i].id.member == list[j].id.member ==> list[i].id.index < list[j].id.index)
  }

  /** Among finitely many segments some are the first left of their members. */
  lemma {:induction false} SomeFirst(ids: set<SegmentId>)
    requires ids != {}
    ensures exists id <- ids :: IsFirst(ids, id)
  {
    var id :| id in ids;
    var rest := ids - {id};
    if rest == {} {
      assert ids == rest + {id};
      assert IsFirst(ids, id);
    } else {
      SomeFirst(rest);
      var other :| other in rest && IsFirst(rest, other);
      var first := if id.member == other.member && id.index < other.index then id else other;
      forall x <- ids | x.member == first.member ensures first.index <= x.index {
        if x != id { assert x in rest && (x.member == other.member ==> other.index <= x.index); }
      }
      assert IsFirst(ids, first);
    }
  }

  predicate IsFirst(ids: set<SegmentId>, id: SegmentId) {
    forall other <- ids :: other.member == id.member ==> id.index <= other.index
  }

  lemma FirstIsLess(ids: set<SegmentId>, id: SegmentId, other: SegmentId)
    requires id in ids && IsFirst(ids, id) && other in ids && other != id && other.member == id.member
    ensures id.index < other.index
  {
    assert other == SegmentId(other.member, other.index) && id == SegmentId(id.member, id.index);
  }

  lemma ReadMore(list: seq<Recorded>, r: Recorded, id: SegmentId)
    ensures Read(list + [r], |list| + 1, id) <==> Read(list, |list|, id) || id == r.id
  {
    ReadNext(list + [r], |list|, id);
    if Read(list, |list|, id) {
      var k: nat :| k < |list| && list[k].id == id;
      assert (list + [r])[k].id == id;
    }
    if Read(list + [r], |list|, id) {
      var k: nat :| k < |list| && (list + [r])[k].id == id;
      assert list[k].id == id;
    }
  }

  /** The query of the recorded segments. */
  method ReadSegments(s: LoadState) returns (list: seq<Recorded>)
    ensures SegmentsListed(s, list)
  {
    hide Read, IsFirst;
    list := [];
    var rest := s.segments.Keys;
    while rest != {}
      invariant rest <= s.segments.Keys
      invariant forall r <- list :: r.id in s.segments && r.stored == s.segments[r.id] && r.id !in rest
      invariant forall id <- s.segments :: id in rest || Read(list, |list|, id)
      invariant forall i: nat, j: nat | i < j < |list| ::
                  list[i].id.member == list[j].id.member ==> list[i].id.index < list[j].id.index
      invariant forall r <- list, id <- rest :: r.id.member == id.member ==> r.id.index < id.index
      decreases |rest|
    {
      SomeFirst(rest);
      var id :| id in rest && IsFirst(rest, id);
      forall other: SegmentId
        ensures Read(list + [Recorded(id, s.segments[id])], |list| + 1, other) <==> Read(list, |list|, other) || other == id
      {
        ReadMore(list, Recorded(id, s.segments[id]), other);
      }
      forall other <- rest | other != id && other.member == id.member ensures id.index < other.index {
        FirstIsLess(rest, id, other);
      }
      list, rest := list + [Recorded(id, s.segments[id])], rest - {id};
    }
  }

  ghost predicate Read(list: seq<Recorded>, n: nat, id: SegmentId)
    requires n <= |list|
  {
    exists k: nat :: k < n && list[k].id == id
  }

  /** The segments of a member read so far: the first `count` of the plan, with `total` rows. */
  ghost predicate Counted(def: Definition, load: Contract, s: LoadState, list: seq<Recorded>, n: nat, key: string,
                          count: nat, total: nat)
    requires n <= |list| && key in s.members
  {
    && (forall i: nat {:trigger SegmentId(key, i)} :: Read(list, n, SegmentId(key, i)) <==> i < count)
    && (forall i: nat {:trigger SegmentId(key, i)} | i < count ::
          SegmentId(key, i) in s.segments && StoredFits(def, load, s.members[key], i, s.segments[SegmentId(key, i)]))
    && total == RowTotal(s, key, count)
  }

  ghost predicate AllCounted(def: Definition, load: Contract, s: LoadState, list: seq<Recorded>, n: nat,
                             counts: map<string, nat>, rows: map<string, nat>)
    requires n <= |list|
  {
    && counts.Keys == rows.Keys == s.members.Keys
    && (forall key <- s.members :: Counted(def, load, s, list, n, key, counts[key], rows[key]))
  }

  /** A segment that is not the next one of its member leaves a gap in the plan. */
  lemma Gap(def: Definition, load: Contract, s: LoadState, list: seq<Recorded>, n: nat, key: string, count: nat, total: nat)
    requires SegmentsListed(s, list) && n < |list| && list[n].id.member == key && key in s.members
    requires Counted(def, load, s, list, n, key, count, total) && list[n].id.index != count
    ensures !MemberSegmentsOk(def, load, s, key)
  {
    hide StoredFits, RowTotal;
    var x := list[n].id.index;
    assert list[n] in list && list[n].id == SegmentId(key, x);
    assert !Read(list, n, SegmentId(key, x));
    assert !Read(list, n, SegmentId(key, count));
    assert !Read(list, |list|, SegmentId(key, count));
  }

  lemma ReadNext(list: seq<Recorded>, n: nat, id: SegmentId)
    requires n < |list|
    ensures Read(list, n + 1, id) <==> Read(list, n, id) || id == list[n].id
  {
    if Read(list, n, id) {
      var k: nat :| k < n && list[k].id == id;
      assert k < n + 1;
    }
  }

  lemma CountOne(def: Definition, load: Contract, s: LoadState, list: seq<Recorded>, n: nat,
                 counts: map<string, nat>, rows: map<string, nat>)
    requires SegmentsListed(s, list) && n < |list| && AllCounted(def, load, s, list, n, counts, rows)
    requires var r := list[n];
             && r.id.member in s.members && r.id.index == counts[r.id.member]
             && StoredFits(def, load, s.members[r.id.member], r.id.index, r.stored)
    ensures var key := list[n].id.member;
            AllCounted(def, load, s, list, n + 1, counts[key := counts[key] + 1], rows[key := rows[key] + list[n].stored.count])
  {
    hide StoredFits, RowTotal, Counted, Read;
    var r := list[n];
    assert r in list && r.id == SegmentId(r.id.member, r.id.index);
    forall key <- s.members
      ensures Counted(def, load, s, list, n + 1, key, if key == r.id.member then counts[key] + 1 else counts[key],
                      if key == r.id.member then rows[key] + r.stored.count else rows[key])
    {
      CountMember(def, load, s, list, n, key, counts[key], rows[key]);
    }
  }

  lemma CountMember(def: Definition, load: Contract, s: LoadState, list: seq<Recorded>, n: nat, key: string,
                    count: nat, total: nat)
    requires n < |list| && key in s.members && Counted(def, load, s, list, n, key, count, total)
    requires list[n].id in s.segments && list[n].stored == s.segments[list[n].id]
    requires list[n].id.member == key ==>
               list[n].id.index == count && StoredFits(def, load, s.members[key], count, list[n].stored)
    ensures var mine := list[n].id.member == key;
            Counted(def, load, s, list, n + 1, key, if mine then count + 1 else count,
                    if mine then total + list[n].stored.count else total)
  {
    hide StoredFits, Read;
    var id := list[n].id;
    assert id == SegmentId(id.member, id.index);
    forall i: nat ensures Read(list, n + 1, SegmentId(key, i)) <==> Read(list, n, SegmentId(key, i)) || SegmentId(key, i) == id {
      ReadNext(list, n, SegmentId(key, i));
    }
  }

  lemma NoneRead(def: Definition, load: Contract, s: LoadState, list: seq<Recorded>)
    ensures AllCounted(def, load, s, list, 0, map key <- s.members :: 0, map key <- s.members :: 0)
  {
  }

  lemma Whole(def: Definition, load: Contract, s: LoadState, list: seq<Recorded>, key: string, count: nat, total: nat)
    requires SegmentsListed(s, list) && key in s.members && s.members[key].expected > 0
    requires Counted(def, load, s, list, |list|, key, count, total)
    ensures MemberSegmentsOk(def, load, s, key)
       <==> count == s.members[key].expected && s.members[key].staged == s.members[key].expected
            && total == s.members[key].count
  {
    hide StoredFits;
    forall i: nat ensures SegmentId(key, i) in s.segments <==> i < count {
      assert SegmentId(key, i) in s.segments ==> Read(list, |list|, SegmentId(key, i));
    }
    if MemberSegmentsOk(def, load, s, key) {
      var expected := s.members[key].expected;
      assert count > expected ==> SegmentId(key, expected) in s.segments;
      assert count < expected ==> SegmentId(key, count) in s.segments;
    }
  }

  /** Reads the segments in order, counting them and their rows by member. */
  method CountSegments(def: Definition, load: Contract, s: LoadState, list: seq<Recorded>)
    returns (ok: bool, counts: map<string, nat>, rows: map<string, nat>)
    requires SegmentsListed(s, list)
    ensures ok ==> AllCounted(def, load, s, list, |list|, counts, rows)
    ensures ok ==> forall id <- s.segments :: id.member in s.members
    ensures !ok ==> !SegmentsOk(def, load, s)
  {
    hide AllCounted, MemberSegmentsOk, StoredFits;
    ok, counts, rows := true, map key | key in s.members :: 0, map key | key in s.members :: 0;
    NoneRead(def, load, s, list);
    for n := 0 to |list|
      invariant AllCounted(def, load, s, list, n, counts, rows)
      invariant forall k: nat | k < n :: list[k].id.member in s.members
    {
      var r := list[n];
      assert r in list;
      var key := r.id.member;
      if key !in s.members { return false, counts, rows; }
      CountsOf(def, load, s, list, n, counts, rows, key);
      if r.id.index != counts[key] {
        Gap(def, load, s, list, n, key, counts[key], rows[key]);
        return false, counts, rows;
      }
      if !StoredFits(def, load, s.members[key], r.id.index, r.stored) {
        Misfit(def, load, s, r);
        return false, counts, rows;
      }
      CountOne(def, load, s, list, n, counts, rows);
      counts, rows := counts[key := counts[key] + 1], rows[key := rows[key] + r.stored.count];
    }
    forall id <- s.segments ensures id.member in s.members { assert Read(list, |list|, id); }
  }

  lemma CountsOf(def: Definition, load: Contract, s: LoadState, list: seq<Recorded>, n: nat,
                 counts: map<string, nat>, rows: map<string, nat>, key: string)
    requires n <= |list| && key in s.members && AllCounted(def, load, s, list, n, counts, rows)
    ensures key in counts && key in rows && Counted(def, load, s, list, n, key, counts[key], rows[key])
  {
  }

  lemma Misfit(def: Definition, load: Contract, s: LoadState, r: Recorded)
    requires r.id in s.segments && r.stored == s.segments[r.id] && r.id.member in s.members
    requires !StoredFits(def, load, s.members[r.id.member], r.id.index, r.stored)
    ensures !MemberSegmentsOk(def, load, s, r.id.member)
  {
    hide StoredFits;
    assert r.id == SegmentId(r.id.member, r.id.index);
  }

  /** Compares the counts with the members. */
  method CompleteMembers(def: Definition, load: Contract, s: LoadState, keys: seq<string>, ghost list: seq<Recorded>,
                         counts: map<string, nat>, rows: map<string, nat>)
    returns (ok: bool)
    requires MembersListed(s.members, keys) && SegmentsListed(s, list)
    requires forall key <- s.members :: s.members[key].expected > 0
    requires AllCounted(def, load, s, list, |list|, counts, rows)
    ensures ok <==> forall key <- s.members :: MemberSegmentsOk(def, load, s, key)
  {
    hide AllCounted, MemberSegmentsOk;
    for n := 0 to |keys|
      invariant forall k: nat | k < n :: MemberSegmentsOk(def, load, s, keys[k])
    {
      var key := keys[n];
      assert key in keys;
      CountsOf(def, load, s, list, |list|, counts, rows, key);
      Whole(def, load, s, list, key, counts[key], rows[key]);
      var m := s.members[key];
      if counts[key] != m.expected || m.staged != m.expected || rows[key] != m.count { return false; }
    }
    return true;
  }

  // ---------------------------------------------------------------------------------------------------------
  // Snapshots
  // ---------------------------------------------------------------------------------------------------------

  ghost predicate Taken(members: map<string, Member>, keys: seq<string>, n: nat, date: CalendarDate, location: string)
    requires n <= |keys| && forall key <- keys :: key in members
  {
    exists k: nat :: k < n && members[keys[k]].from == date && members[keys[k]].location == location
  }

  ghost predicate Used(members: map<string, Member>, keys: seq<string>, n: nat, location: string)
    requires n <= |keys| && forall key <- keys :: key in members
  {
    exists k: nat :: k < n && members[keys[k]].location == location
  }

  ghost predicate UsedAre(members: map<string, Member>, keys: seq<string>, n: nat, locations: set<string>)
    requires n <= |keys| && forall key <- keys :: key in members
  {
    forall location :: location in locations <==> Used(members, keys, n, location)
  }

  ghost predicate TakenAre(members: map<string, Member>, keys: seq<string>, n: nat, dates: map<CalendarDate, set<string>>)
    requires n <= |keys| && forall key <- keys :: key in members
  {
    forall date, location :: location in At(dates, date) <==> Taken(members, keys, n, date, location)
  }

  /** What the first loop collects: all locations, and by date the locations that have a snapshot of it. */
  ghost predicate Gathered(members: map<string, Member>, keys: seq<string>, n: nat, locations: set<string>,
                           dates: map<CalendarDate, set<string>>)
    requires n <= |keys| && forall key <- keys :: key in members
  {
    && UsedAre(members, keys, n, locations)
    && TakenAre(members, keys, n, dates)
  }

  function At(dates: map<CalendarDate, set<string>>, date: CalendarDate): set<string> {
    if date in dates then dates[date] else {}
  }

  predicate SameSnapshot(a: Member, b: Member) { a.from == b.from && a.location == b.location }

  predicate SingleDay(m: Member) { m.from == m.to && m.location != "" }

  lemma GatherOne(members: map<string, Member>, keys: seq<string>, n: nat, locations: set<string>,
                  dates: map<CalendarDate, set<string>>)
    requires (forall key <- keys :: key in members) && n < |keys| && Gathered(members, keys, n, locations, dates)
    ensures var m, date := members[keys[n]], members[keys[n]].from;
            Gathered(members, keys, n + 1, locations + {m.location}, dates[date := At(dates, date) + {m.location}])
  {
    var m := members[keys[n]];
    var dates' := dates[m.from := At(dates, m.from) + {m.location}];
    forall date, location
      ensures location in At(dates', date) <==> Taken(members, keys, n + 1, date, location)
    {
      TakenNext(members, keys, n, date, location);
      assert location in At(dates, date) <==> Taken(members, keys, n, date, location);
    }
    forall location
      ensures location in locations + {m.location} <==> Used(members, keys, n + 1, location)
    {
      if Used(members, keys, n, location) {
        var k: nat :| k < n && members[keys[k]].location == location;
        assert k < n + 1;
      }
    }
    assert UsedAre(members, keys, n + 1, locations + {m.location});
    assert TakenAre(members, keys, n + 1, dates');
  }

  lemma TakenNext(members: map<string, Member>, keys: seq<string>, n: nat, date: CalendarDate, location: string)
    requires (forall key <- keys :: key in members) && n < |keys|
    ensures Taken(members, keys, n + 1, date, location)
       <==> Taken(members, keys, n, date, location)
            || (date == members[keys[n]].from && location == members[keys[n]].location)
  {
    if Taken(members, keys, n, date, location) {
      var k: nat :| k < n && members[keys[k]].from == date && members[keys[k]].location == location;
      assert k < n + 1;
    }
  }

  lemma {:induction false} SubsetOfSameSize<T>(a: set<T>, b: set<T>)
    requires a <= b
    ensures |a| <= |b|
    ensures |a| == |b| <==> a == b
  {
    if a != {} {
      var x :| x in a;
      SubsetOfSameSize(a - {x}, b - {x});
      assert a == (a - {x}) + {x} && b == (b - {x}) + {x};
    }
  }

  /** Counting a date's locations tells whether it has them all. */
  lemma FullDay(members: map<string, Member>, keys: seq<string>, locations: set<string>,
                dates: map<CalendarDate, set<string>>, date: CalendarDate)
    requires MembersListed(members, keys) && IsCivil(date) && forall key <- members :: IsCivil(members[key].from)
    requires Gathered(members, keys, |keys|, locations, dates)
    ensures |At(dates, date)| == |locations|
       <==> forall key <- members :: Snapshotted(members, members[key].location, Ordinal(date))
  {
    hide Ordinal, IsCivil;
    var here := At(dates, date);
    forall location <- here ensures location in locations {
      assert Taken(members, keys, |keys|, date, location);
      assert Used(members, keys, |keys|, location);
    }
    SubsetOfSameSize(here, locations);
    forall key <- members
      ensures Snapshotted(members, members[key].location, Ordinal(date)) <==> members[key].location in here
    {
      TakenIsSnapshotted(members, keys, date, members[key].location);
      assert members[key].location in here <==> Taken(members, keys, |keys|, date, members[key].location);
    }
    if forall key <- members :: members[key].location in here {
      forall location <- locations ensures location in here {
        assert Used(members, keys, |keys|, location);
        var k: nat :| k < |keys| && members[keys[k]].location == location;
        assert keys[k] in keys;
      }
    } else {
      var key :| key in members && members[key].location !in here;
      assert key in keys;
      var k: nat :| k < |keys| && keys[k] == key;
      assert Used(members, keys, |keys|, members[key].location);
    }
  }

  lemma TakenIsSnapshotted(members: map<string, Member>, keys: seq<string>, date: CalendarDate, location: string)
    requires MembersListed(members, keys) && IsCivil(date) && forall key <- members :: IsCivil(members[key].from)
    ensures Taken(members, keys, |keys|, date, location) <==> Snapshotted(members, location, Ordinal(date))
  {
    hide Ordinal, IsCivil;
    if Taken(members, keys, |keys|, date, location) {
      var k: nat :| k < |keys| && members[keys[k]].from == date && members[keys[k]].location == location;
      assert keys[k] in keys;
    }
    if Snapshotted(members, location, Ordinal(date)) {
      var key :| key in members && members[key].location == location && Ordinal(members[key].from) == Ordinal(date);
      BeforeIsOrdinal(members[key].from, date);
      assert key in keys;
      var k: nat :| k < |keys| && keys[k] == key;
    }
  }

  /** The first loop: single days, no snapshot twice. */
  method GatherSnapshots(members: map<string, Member>, keys: seq<string>)
    returns (ok: bool, locations: set<string>, dates: map<CalendarDate, set<string>>)
    requires MembersListed(members, keys)
    ensures ok ==> Gathered(members, keys, |keys|, locations, dates)
    ensures ok <==>
      && (forall key <- members :: SingleDay(members[key]))
      && (forall j <- members, k <- members | j != k :: !SameSnapshot(members[j], members[k]))
  {
    hide Gathered, SingleDay, SameSnapshot;
    ok, locations, dates := true, {}, map[];
    NoneGathered(members, keys);
    for n := 0 to |keys|
      invariant Gathered(members, keys, n, locations, dates)
      invariant forall k: nat | k < n :: SingleDay(members[keys[k]])
      invariant forall j: nat, k: nat | j < k < n :: !SameSnapshot(members[keys[j]], members[keys[k]])
    {
      assert keys[n] in keys;
      var m := members[keys[n]];
      if !SingleDay(m) { return false, locations, dates; }
      TakenBefore(members, keys, n, locations, dates);
      if m.location in At(dates, m.from) { return false, locations, dates; }
      GatherOne(members, keys, n, locations, dates);
      locations, dates := locations + {m.location}, dates[m.from := At(dates, m.from) + {m.location}];
    }
    forall j <- members, k <- members | j != k ensures !SameSnapshot(members[j], members[k]) {
      assert j in keys && k in keys;
      var a: nat :| a < |keys| && keys[a] == j;
      var b: nat :| b < |keys| && keys[b] == k;
      SameSnapshotIsSymmetric(members[j], members[k]);
    }
  }

  lemma SameSnapshotIsSymmetric(a: Member, b: Member)
    ensures SameSnapshot(a, b) <==> SameSnapshot(b, a)
  {
  }

  lemma NoneGathered(members: map<string, Member>, keys: seq<string>)
    requires forall key <- keys :: key in members
    ensures Gathered(members, keys, 0, {}, map[])
  {
  }

  lemma TakenBefore(members: map<string, Member>, keys: seq<string>, n: nat, locations: set<string>,
                    dates: map<CalendarDate, set<string>>)
    requires MembersListed(members, keys) && n < |keys| && Gathered(members, keys, n, locations, dates)
    ensures var m := members[keys[n]];
            && (m.location in At(dates, m.from) <==> exists k: nat :: k < n && SameSnapshot(members[keys[k]], m))
            && (forall k: nat | k < n :: keys[k] in members && keys[k] != keys[n])
  {
    var m := members[keys[n]];
    assert m.location in At(dates, m.from) <==> Taken(members, keys, n, m.from, m.location);
    forall k: nat | k < n ensures keys[k] in members { assert keys[k] in keys; }
    if m.location in At(dates, m.from) {
      var k: nat :| k < n && members[keys[k]].from == m.from && members[keys[k]].location == m.location;
      assert SameSnapshot(members[keys[k]], m);
    }
  }

  /** The second loop: every date of the load has as many locations as there are. */
  method CompleteDates(load: Contract, members: map<string, Member>, keys: seq<string>, locations: set<string>,
                       dates: map<CalendarDate, set<string>>)
    returns (ok: bool)
    requires MembersListed(members, keys) && forall key <- members :: IsCivil(members[key].from)
    requires Gathered(members, keys, |keys|, locations, dates)
    requires IsCivil(load.from) && IsCivil(load.to) && Ordinal(load.from) <= Ordinal(load.to)
    ensures ok <==> forall key <- members, day: nat {:trigger Snapshotted(members, members[key].location, day)} ::
              Ordinal(load.from) <= day <= Ordinal(load.to) ==> Snapshotted(members, members[key].location, day)
  {
    hide Ordinal, IsCivil, Gathered, Snapshotted;
    var date := load.from;
    while true
      invariant IsCivil(date) && Ordinal(load.from) <= Ordinal(date) <= Ordinal(load.to)
      invariant forall key <- members, day: nat {:trigger Snapshotted(members, members[key].location, day)} ::
                  Ordinal(load.from) <= day < Ordinal(date) ==> Snapshotted(members, members[key].location, day)
      decreases Ordinal(load.to) - Ordinal(date)
    {
      FullDay(members, keys, locations, dates, date);
      if |At(dates, date)| != |locations| { return false; }
      BeforeIsOrdinal(date, load.to);
      if date == load.to { return true; }
      NextIsSuccessor(date);
      date := Next(date);
    }
  }

  /** All of the checks, in the order they are made. */
  method ValidateSegments(def: Definition, load: Contract, s: LoadState, keys: seq<string>, list: seq<Recorded>)
    returns (ok: bool)
    requires ContractOk(load, def) && MembersListed(s.members, keys) && SegmentsListed(s, list)
    ensures ok <==> SegmentsOk(def, load, s) && ShapeOk(def, load, s.members)
  {
    hide MemberSegmentsOk, AllCounted, Gathered, Snapshotted, Ordinal;
    var within := MembersWithin(def, load, s, keys);
    if !within { return false; }
    var counted, counts, rows := CountSegments(def, load, s, list);
    if !counted { return false; }
    var complete := CompleteMembers(def, load, s, keys, list, counts, rows);
    if !complete { return false; }
    if def.snapshotDate {
      forall key <- s.members ensures IsCivil(s.members[key].from) { PlannedDates(def, load, s, key); }
      var gathered, locations, dates := GatherSnapshots(s.members, keys);
      if !gathered { return false; }
      ok := CompleteDates(load, s.members, keys, locations, dates);
    } else {
      ok := forall key <- s.members :: s.members[key].from == load.from && s.members[key].to == load.to;
    }
  }

  lemma PlannedDates(def: Definition, load: Contract, s: LoadState, key: string)
    requires key in s.members && MemberSegmentsOk(def, load, s, key)
    ensures IsCivil(s.members[key].from)
  {
    assert StoredFits(def, load, s.members[key], 0, s.segments[SegmentId(key, 0)]);
  }

  method MembersWithin(def: Definition, load: Contract, s: LoadState, keys: seq<string>) returns (ok: bool)
    requires MembersListed(s.members, keys)
    ensures ok <==> forall key <- s.members :: InLoad(load, s.members[key]) && s.members[key].expected > 0
    ensures !ok ==> !(SegmentsOk(def, load, s) && ShapeOk(def, load, s.members))
  {
    hide Ordinal;
    for n := 0 to |keys|
      invariant forall k: nat | k < n :: InLoad(load, s.members[keys[k]]) && s.members[keys[k]].expected > 0
    {
      assert keys[n] in keys;
      var m := s.members[keys[n]];
      if !InLoad(load, m) || m.expected == 0 {
        assert MemberSegmentsOk(def, load, s, keys[n]) ==> m.expected > 0;
        return false;
      }
    }
    return true;
  }
}
