/** Building and beginning Fixed loads that promotion accepts. */
module FixedPlans {
  import opened Options
  import opened Calendar
  import opened Chunks
  import opened FixedStaging
  import R = FixedRuns
  import L = FixedLedger
  import V = FixedValidation

  const SINGLE := "__single__"
  const SERIES_JOB := "balance_sheet_report"

  /** How a definition spreads its requests: one per location, one per account code, or a single one. */
  datatype Spread = PerLocation | PerAccount | Single

  datatype Request = Request(key: string, from: CalendarDate, to: CalendarDate, location: string, account: string)
  datatype RequestPlan = RequestPlan(from: CalendarDate, to: CalendarDate, requests: seq<Request>)

  /** What freezing leaves: nonblank values, each once. */
  ghost predicate Frozen(values: seq<string>) {
    && (forall v <- values :: v != "")
    && (forall i: nat, j: nat | i < j < |values| :: values[i] != values[j])
  }

  // ---------------------------------------------------------------------------------------------------------
  // Plans
  // ---------------------------------------------------------------------------------------------------------

  function ValuesOf(spread: Spread, locations: seq<string>, accounts: seq<string>): seq<string> {
    match spread
    case PerLocation => locations
    case PerAccount => accounts
    case Single => [""]
  }

  function RangeRequest(spread: Spread, from: CalendarDate, to: CalendarDate, value: string): Request {
    match spread
    case PerLocation => Request(value, from, to, value, "")
    case PerAccount => Request(value, from, to, "", value)
    case Single => Request(SINGLE, from, to, "", "")
  }

  /** One request for each value of the spread, all for the whole range. */
  ghost predicate IsRangePlan(spread: Spread, locations: seq<string>, accounts: seq<string>, from: CalendarDate,
                              to: CalendarDate, plan: RequestPlan)
  {
    var values := ValuesOf(spread, locations, accounts);
    && plan.from == from && plan.to == to
    && |plan.requests| == |values| > 0
    && (forall n: nat | n < |values| :: plan.requests[n] == RangeRequest(spread, from, to, values[n]))
  }

  method BuildFixedPlan(def: Definition, spread: Spread, from: CalendarDate, to: CalendarDate, locations: seq<string>,
                        accounts: seq<string>)
    returns (plan: Option<RequestPlan>)
    requires Dated(from) && Dated(to)
    ensures plan.Some? <==>
      && !IsZero(from) && !IsZero(to) && Ordinal(from) <= Ordinal(to) && (def.snapshotDate ==> from == to)
      && ValuesOf(spread, locations, accounts) != []
    ensures plan.Some? ==> IsRangePlan(spread, locations, accounts, from, to, plan.value)
  {
    hide Ordinal, String, Less;
    if IsZero(from) || IsZero(to) { return None; }
    NotAfter(from, to);
    if Less(String(to), String(from)) { return None; }
    if def.snapshotDate && from != to { return None; }
    var requests := [];
    match spread {
      case PerLocation =>
        if locations == [] { return None; }
        for n := 0 to |locations|
          invariant |requests| == n
          invariant forall k: nat | k < n :: requests[k] == RangeRequest(spread, from, to, locations[k])
        {
          requests := requests + [Request(locations[n], from, to, locations[n], "")];
        }
      case PerAccount =>
        if accounts == [] { return None; }
        for n := 0 to |accounts|
          invariant |requests| == n
          invariant forall k: nat | k < n :: requests[k] == RangeRequest(spread, from, to, accounts[k])
        {
          requests := requests + [Request(accounts[n], from, to, "", accounts[n])];
        }
      case Single => requests := [Request(SINGLE, from, to, "", "")];
    }
    return Some(RequestPlan(from, to, requests));
  }

  /** The dates follow each other day by day. */
  ghost predicate Contiguous(dates: seq<CalendarDate>) {
    && (forall d <- dates :: InRange(d))
    && (forall n: nat {:trigger dates[n]} | 0 < n < |dates| :: Ordinal(dates[n]) == Ordinal(dates[n - 1]) + 1)
  }

  type KeyRule = (CalendarDate, string) -> string

  /** The place of the d-th date's l-th location. */
  function Place(locations: nat, d: nat, l: nat): nat { d * locations + l }

  /** The request for a date and a location is in its place. */
  predicate InPlace(keyOf: KeyRule, dates: seq<CalendarDate>, locations: seq<string>, requests: seq<Request>, d: nat, l: nat)
    requires d < |dates| && l < |locations|
  {
    var n := Place(|locations|, d, l);
    n < |requests| && requests[n] == Request(keyOf(dates[d], locations[l]), dates[d], dates[d], locations[l], "")
  }

  /** One request for each date and location, date by date. */
  ghost predicate IsSeriesPlan(keyOf: KeyRule, dates: seq<CalendarDate>, locations: seq<string>, plan: RequestPlan) {
    && dates != [] && locations != [] && Contiguous(dates)
    && plan.from == dates[0] && plan.to == dates[|dates| - 1]
    && |plan.requests| == Place(|locations|, |dates|, 0)
    && (forall d: nat, l: nat | d < |dates| && l < |locations| :: InPlace(keyOf, dates, locations, plan.requests, d, l))
  }

  /** No date is missing, and each follows the one before. */
  method CheckSeries(dates: seq<CalendarDate>) returns (ok: bool)
    requires forall d <- dates :: Dated(d)
    ensures ok <==> Contiguous(dates)
  {
    hide Ordinal, DaysIn, Next;
    for n := 0 to |dates|
      invariant forall k: nat | k < n :: InRange(dates[k])
      invariant forall k: nat {:trigger dates[k]} | 0 < k < n :: Ordinal(dates[k]) == Ordinal(dates[k - 1]) + 1
    {
      assert dates[n] in dates;
      if IsZero(dates[n]) { return false; }
      if n > 0 {
        FollowsIsNext(dates[n - 1], dates[n]);
        if dates[n] != AddDays(dates[n - 1], 1) { return false; }
      }
    }
    return true;
  }

  lemma FollowsIsNext(a: CalendarDate, b: CalendarDate)
    requires InRange(a) && InRange(b)
    ensures b == AddDays(a, 1) <==> Ordinal(b) == Ordinal(a) + 1
  {
    hide Ordinal;
    AddDaysAdds(a, 1);
    BeforeIsOrdinal(b, AddDays(a, 1));
  }

  method BuildFixedDateSeriesPlan(def: Definition, keyOf: KeyRule, dates: seq<CalendarDate>, locations: seq<string>)
    returns (plan: Option<RequestPlan>)
    requires forall d <- dates :: Dated(d)
    ensures plan.Some? <==> def.key == SERIES_JOB && def.snapshotDate && dates != [] && Contiguous(dates) && locations != []
    ensures plan.Some? ==> IsSeriesPlan(keyOf, dates, locations, plan.value)
  {
    hide Ordinal, InPlace, Place, Contiguous;
    if def.key != SERIES_JOB || !def.snapshotDate || dates == [] { return None; }
    var contiguous := CheckSeries(dates);
    if !contiguous { return None; }
    if locations == [] { return None; }
    var requests := SeriesRequests(keyOf, dates, locations);
    return Some(RequestPlan(dates[0], dates[|dates| - 1], requests));
  }

  method SeriesRequests(keyOf: KeyRule, dates: seq<CalendarDate>, locations: seq<string>) returns (requests: seq<Request>)
    ensures |requests| == Place(|locations|, |dates|, 0)
    ensures forall d: nat, l: nat | d < |dates| && l < |locations| :: InPlace(keyOf, dates, locations, requests, d, l)
  {
    hide Requested, InPlace;
    requests := [];
    NothingRequested(keyOf, dates, locations);
    assert Place(|locations|, 0, 0) == 0;
    hide Place;
    for d := 0 to |dates|
      invariant |requests| == Place(|locations|, d, 0)
      invariant Requested(keyOf, dates, locations, requests, d, 0)
    {
      for l := 0 to |locations|
        invariant |requests| == Place(|locations|, d, l)
        invariant Requested(keyOf, dates, locations, requests, d, l)
      {
        RequestMore(keyOf, dates, locations, requests, d, l);
        requests := requests + [Request(keyOf(dates[d], locations[l]), dates[d], dates[d], locations[l], "")];
      }
      NextDate(keyOf, dates, locations, requests, d);
    }
    AllRequested(keyOf, dates, locations, requests);
  }

  lemma NothingRequested(keyOf: KeyRule, dates: seq<CalendarDate>, locations: seq<string>)
    ensures Requested(keyOf, dates, locations, [], 0, 0)
  {
  }

  /** The requests of the first dates, and of the first locations of the next date. */
  ghost predicate Requested(keyOf: KeyRule, dates: seq<CalendarDate>, locations: seq<string>, requests: seq<Request>,
                            date: nat, location: nat)
  {
    forall d: nat, l: nat | d < |dates| && l < |locations| && (d < date || (d == date && l < location)) ::
      InPlace(keyOf, dates, locations, requests, d, l)
  }

  lemma RequestMore(keyOf: KeyRule, dates: seq<CalendarDate>, locations: seq<string>, requests: seq<Request>,
                    date: nat, location: nat)
    requires date < |dates| && location < |locations| && |requests| == Place(|locations|, date, location)
    requires Requested(keyOf, dates, locations, requests, date, location)
    ensures var more := requests + [Request(keyOf(dates[date], locations[location]), dates[date], dates[date],
                                            locations[location], "")];
            && Requested(keyOf, dates, locations, more, date, location + 1)
            && |more| == Place(|locations|, date, location + 1)
  {
    var more := requests + [Request(keyOf(dates[date], locations[location]), dates[date], dates[date], locations[location], "")];
    assert |more| == Place(|locations|, date, location + 1);
    hide Place;
    forall d: nat, l: nat | d < |dates| && l < |locations| && (d < date || (d == date && l < location + 1))
      ensures InPlace(keyOf, dates, locations, more, d, l)
    {
      if !(d == date && l == location) { assert InPlace(keyOf, dates, locations, requests, d, l); }
    }
  }

  lemma NextDate(keyOf: KeyRule, dates: seq<CalendarDate>, locations: seq<string>, requests: seq<Request>, date: nat)
    requires date < |dates| && Requested(keyOf, dates, locations, requests, date, |locations|)
    ensures Requested(keyOf, dates, locations, requests, date + 1, 0)
    ensures Place(|locations|, date, |locations|) == Place(|locations|, date + 1, 0)
  {
    hide InPlace;
  }

  lemma AllRequested(keyOf: KeyRule, dates: seq<CalendarDate>, locations: seq<string>, requests: seq<Request>)
    requires Requested(keyOf, dates, locations, requests, |dates|, 0)
    ensures forall d: nat, l: nat | d < |dates| && l < |locations| :: InPlace(keyOf, dates, locations, requests, d, l)
  {
  }

  // ---------------------------------------------------------------------------------------------------------
  // Beginning a load
  // ---------------------------------------------------------------------------------------------------------

  function ContractOf(def: Definition, plan: RequestPlan, variants: seq<string>): Contract {
    Contract(def.key, plan.from, plan.to, CONTRACT_VERSION, def.publication, def.requests, def.maxChunkDays, variants,
             |plan.requests|)
  }

  predicate RequestFits(def: Definition, plan: RequestPlan, r: Request)
    requires Dated(r.from) && Dated(r.to)
  {
    && r.key != ""
    && !Less(String(r.from), String(plan.from)) && !Less(String(plan.to), String(r.to))
    && SourceChunks(def, r.from, r.to).Some?
  }

  function MemberOf(def: Definition, load: Contract, r: Request): Member
    requires Dated(r.from) && Dated(r.to) && SourceChunks(def, r.from, r.to).Some?
  {
    Member(MemberPending, r.from, r.to, r.location, r.account, 0, 0,
           |SourceChunks(def, r.from, r.to).value| * Partitions(load), None)
  }

  /** The load that was begun: a member for each request, under its key. */
  ghost predicate Begun(def: Definition, plan: RequestPlan, variants: seq<string>, load: Contract, keys: seq<string>,
                        members: map<string, Member>)
  {
    && load == ContractOf(def, plan, variants) && VariantsOk(def.key, variants)
    && plan.requests != [] && (forall r <- plan.requests :: Dated(r.from) && Dated(r.to) && RequestFits(def, plan, r))
    && |keys| == |plan.requests| && (forall n: nat | n < |keys| :: keys[n] == plan.requests[n].key)
    && V.MembersListed(members, keys)
    && (forall n: nat | n < |keys| :: keys[n] in members && members[keys[n]] == MemberOf(def, load, plan.requests[n]))
  }

  method BeginLoad(def: Definition, plan: RequestPlan, variants: seq<string>)
    returns (r: Option<(Contract, seq<string>, map<string, Member>)>)
    requires forall r <- plan.requests :: Dated(r.from) && Dated(r.to)
    ensures r.Some? <==>
      && VariantsOk(def.key, variants)
      && plan.requests != [] && (forall r <- plan.requests :: RequestFits(def, plan, r))
      && (forall i: nat, j: nat | i < j < |plan.requests| :: plan.requests[i].key != plan.requests[j].key)
    ensures r.Some? ==> Begun(def, plan, variants, r.value.0, r.value.1, r.value.2)
  {
    hide SourceChunks, Less, String, VariantsOk, Partitions, V.MembersListed;
    if plan.requests == [] || !VariantsOk(def.key, variants) { return None; }
    var load := ContractOf(def, plan, variants);
    var keys: seq<string>, members: map<string, Member> := [], map[];
    NoMembers();
    for n := 0 to |plan.requests|
      invariant forall k: nat | k < n :: RequestFits(def, plan, plan.requests[k])
      invariant |keys| == n && (forall k: nat | k < n :: keys[k] == plan.requests[k].key)
      invariant V.MembersListed(members, keys)
      invariant forall k: nat | k < n :: keys[k] in members && members[keys[k]] == MemberOf(def, load, plan.requests[k])
    {
      var request := plan.requests[n];
      assert request in plan.requests;
      if !RequestFits(def, plan, request) { return None; }
      ListedIndex(members, keys, request.key);
      if request.key in members { return None; }
      ListedMore(members, keys, request.key, MemberOf(def, load, request));
      keys, members := keys + [request.key], members[request.key := MemberOf(def, load, request)];
    }
    ListedDistinct(members, keys);
    return Some((load, keys, members));
  }

  lemma NoMembers()
    ensures V.MembersListed(map[], [])
  {
  }

  lemma ListedIndex(members: map<string, Member>, keys: seq<string>, key: string)
    requires V.MembersListed(members, keys)
    ensures key in members <==> exists k: nat :: k < |keys| && keys[k] == key
  {
  }

  lemma ListedDistinct(members: map<string, Member>, keys: seq<string>)
    requires V.MembersListed(members, keys)
    ensures forall i: nat, j: nat | i < j < |keys| :: keys[i] != keys[j]
  {
  }

  lemma ListedMore(members: map<string, Member>, keys: seq<string>, key: string, m: Member)
    requires V.MembersListed(members, keys) && key !in members
    ensures V.MembersListed(members[key := m], keys + [key])
  {
  }

  // ---------------------------------------------------------------------------------------------------------
  // Begun loads
  // ---------------------------------------------------------------------------------------------------------

  lemma {:induction false} AsManyMembers(members: map<string, Member>, keys: seq<string>)
    requires V.MembersListed(members, keys)
    ensures |members| == |keys|
  {
    assert |members| == |members.Keys|;
    if keys == [] {
      assert members.Keys == {};
    } else {
      var n := |keys| - 1;
      var rest := members - {keys[n]};
      forall key ensures key in keys[..n] <==> key in rest {
        if key in rest {
          assert key in keys;
          var k: nat :| k < |keys| && keys[k] == key;
          assert keys[..n][k] == key;
        }
        if key in keys[..n] { assert key in keys && key != keys[n]; }
      }
      AsManyMembers(rest, keys[..n]);
      assert keys[n] in keys && members.Keys == rest.Keys + {keys[n]};
      assert |rest| == |rest.Keys|;
    }
  }

  /** A load as it is begun is one promotion can accept, but for its shape. */
  lemma BegunIsCreated(p: R.Plan, plan: RequestPlan, variants: seq<string>, keys: seq<string>, members: map<string, Member>)
    requires Begun(p.def, plan, variants, p.contract, keys, members) && Dated(plan.from) && Dated(plan.to)
    requires Ordinal(plan.from) <= Ordinal(plan.to) && InYears(plan.from) && InYears(plan.to)
    ensures R.Created(p, L.NewSystem(members)) && ContractOk(p.contract, p.def)
  {
    hide SourceChunks, VariantsOk, Less, String, Partitions, Ordinal;
    AsManyMembers(members, keys);
    forall key <- members ensures Planned(p.def, p.contract, members[key]) {
      var n := RequestOf(p.def, plan, variants, p.contract, keys, members, key);
      SourceDates(p.def, plan.requests[n].from, plan.requests[n].to);
    }
    forall key <- members
      ensures members[key].status == MemberPending && members[key].count == 0 && members[key].staged == 0
    {
      var n := RequestOf(p.def, plan, variants, p.contract, keys, members, key);
    }
  }

  lemma RequestOf(def: Definition, plan: RequestPlan, variants: seq<string>, load: Contract, keys: seq<string>,
                  members: map<string, Member>, key: string) returns (n: nat)
    requires Begun(def, plan, variants, load, keys, members) && key in members
    ensures n < |plan.requests| && keys[n] == key && Dated(plan.requests[n].from) && Dated(plan.requests[n].to)
    ensures RequestFits(def, plan, plan.requests[n]) && members[key] == MemberOf(def, load, plan.requests[n])
  {
    hide SourceChunks, VariantsOk, Less, String, Partitions;
    assert key in keys;
    n :| n < |keys| && keys[n] == key;
    assert plan.requests[n] in plan.requests;
  }

  lemma SourceDates(def: Definition, from: CalendarDate, to: CalendarDate)
    requires Dated(from) && Dated(to) && SourceChunks(def, from, to).Some?
    ensures InRange(from) && InRange(to) && InYears(from) && InYears(to) && Ordinal(from) <= Ordinal(to)
    ensures def.snapshotDate ==> from == to
  {
    hide Ordinal;
  }

  lemma RangeShape(p: R.Plan, spread: Spread, locations: seq<string>, accounts: seq<string>, plan: RequestPlan,
                   variants: seq<string>, keys: seq<string>, members: map<string, Member>)
    requires Frozen(locations) && IsRangePlan(spread, locations, accounts, plan.from, plan.to, plan)
    requires Begun(p.def, plan, variants, p.contract, keys, members)
    ensures ShapeOk(p.def, p.contract, members) <==> (p.def.snapshotDate ==> spread == PerLocation)
    ensures Dated(plan.from) && Dated(plan.to) && InYears(plan.from) && InYears(plan.to)
    ensures Ordinal(plan.from) <= Ordinal(plan.to)
  {
    hide SourceChunks, VariantsOk, Less, String, Partitions, Ordinal;
    var first := plan.requests[0];
    assert first in plan.requests && keys[0] in members;
    SourceDates(p.def, first.from, first.to);
    forall key <- members
      ensures members[key].from == plan.from && members[key].to == plan.to
      ensures spread != PerLocation ==> members[key].location == ""
      ensures spread == PerLocation ==> members[key].location == key != ""
    {
      var n := RequestOf(p.def, plan, variants, p.contract, keys, members, key);
      if spread == PerLocation { assert locations[n] in locations; }
    }
    if p.def.snapshotDate && spread == PerLocation { OneDay(p.contract, members); }
  }

  lemma OneDay(load: Contract, members: map<string, Member>)
    requires load.from == load.to
    requires forall key <- members ::
               members[key].from == load.from && members[key].to == load.to && members[key].location == key != ""
    ensures SnapshotsOk(load, members)
  {
    hide Ordinal;
    forall key <- members, day: nat {:trigger Snapshotted(members, members[key].location, day)}
      | Ordinal(load.from) <= day <= Ordinal(load.to)
      ensures Snapshotted(members, members[key].location, day)
    {
      assert members[key].location == members[key].location && Ordinal(members[key].from) == day;
    }
  }

  /** The n-th date of the series is n days after the first. */
  lemma {:induction false} SeriesDay(dates: seq<CalendarDate>, n: nat)
    requires Contiguous(dates) && n < |dates|
    ensures Ordinal(dates[n]) == Ordinal(dates[0]) + n
  {
    hide Ordinal;
    if n > 0 { SeriesDay(dates, n - 1); }
  }

  lemma SeriesIndex(i: nat, dates: nat, locations: nat)
    requires locations > 0 && i < dates * locations
    ensures i / locations < dates && i % locations < locations && i == (i / locations) * locations + i % locations
  {
    IndexInChunks(i, dates, locations);
    Recompose(i, locations);
  }

  lemma SeriesMember(p: R.Plan, keyOf: KeyRule, dates: seq<CalendarDate>, locations: seq<string>, plan: RequestPlan,
                     variants: seq<string>, keys: seq<string>, members: map<string, Member>, key: string)
    returns (d: nat, l: nat)
    requires IsSeriesPlan(keyOf, dates, locations, plan) && Begun(p.def, plan, variants, p.contract, keys, members)
    requires key in members
    ensures d < |dates| && l < |locations| && key == keyOf(dates[d], locations[l])
    ensures members[key].from == members[key].to == dates[d] && members[key].location == locations[l]
  {
    hide SourceChunks, VariantsOk, Less, String, Partitions, Ordinal, IsSeriesPlan, Begun, RequestFits;
    var n := RequestOf(p.def, plan, variants, p.contract, keys, members, key);
    d, l := RequestIndex(keyOf, dates, locations, plan, n);
    BegunKeys(p.def, plan, variants, p.contract, keys, members, n);
  }

  lemma RequestIndex(keyOf: KeyRule, dates: seq<CalendarDate>, locations: seq<string>, plan: RequestPlan, n: nat)
    returns (d: nat, l: nat)
    requires IsSeriesPlan(keyOf, dates, locations, plan) && n < |plan.requests|
    ensures d < |dates| && l < |locations|
    ensures plan.requests[n] == Request(keyOf(dates[d], locations[l]), dates[d], dates[d], locations[l], "")
  {
    hide Contiguous, InPlace;
    assert |plan.requests| == |dates| * |locations| && |locations| > 0;
    SeriesIndex(n, |dates|, |locations|);
    d, l := n / |locations|, n % |locations|;
    assert n == Place(|locations|, d, l);
    RequestAt(keyOf, dates, locations, plan, d, l);
  }

  lemma RequestAt(keyOf: KeyRule, dates: seq<CalendarDate>, locations: seq<string>, plan: RequestPlan, d: nat, l: nat)
    requires IsSeriesPlan(keyOf, dates, locations, plan) && d < |dates| && l < |locations|
    ensures Place(|locations|, d, l) < |plan.requests|
    ensures plan.requests[Place(|locations|, d, l)]
         == Request(keyOf(dates[d], locations[l]), dates[d], dates[d], locations[l], "")
  {
    hide Contiguous, Place;
    assert InPlace(keyOf, dates, locations, plan.requests, d, l);
  }

  lemma BegunKeys(def: Definition, plan: RequestPlan, variants: seq<string>, load: Contract, keys: seq<string>,
                  members: map<string, Member>, n: nat)
    requires Begun(def, plan, variants, load, keys, members) && n < |plan.requests|
    ensures |keys| == |plan.requests| && keys[n] == plan.requests[n].key && keys[n] in members
    ensures plan.requests[n] in plan.requests && Dated(plan.requests[n].from) && Dated(plan.requests[n].to)
    ensures RequestFits(def, plan, plan.requests[n]) && members[keys[n]] == MemberOf(def, load, plan.requests[n])
  {
    hide SourceChunks, VariantsOk, Less, String, Partitions;
  }

  lemma SeriesMemberAt(p: R.Plan, keyOf: KeyRule, dates: seq<CalendarDate>, locations: seq<string>, plan: RequestPlan,
                       variants: seq<string>, keys: seq<string>, members: map<string, Member>, d: nat, l: nat)
    requires IsSeriesPlan(keyOf, dates, locations, plan) && Begun(p.def, plan, variants, p.contract, keys, members)
    requires d < |dates| && l < |locations|
    ensures var key := keyOf(dates[d], locations[l]);
            key in members && members[key].from == members[key].to == dates[d] && members[key].location == locations[l]
  {
    hide SourceChunks, VariantsOk, Less, String, Partitions, Ordinal, IsSeriesPlan, Begun, RequestFits;
    hide Place;
    var n := Place(|locations|, d, l);
    RequestAt(keyOf, dates, locations, plan, d, l);
    BegunKeys(p.def, plan, variants, p.contract, keys, members, n);
  }

  lemma SeriesShape(p: R.Plan, keyOf: KeyRule, dates: seq<CalendarDate>, locations: seq<string>, plan: RequestPlan,
                    variants: seq<string>, keys: seq<string>, members: map<string, Member>)
    requires p.def.snapshotDate && Frozen(locations) && IsSeriesPlan(keyOf, dates, locations, plan)
    requires Begun(p.def, plan, variants, p.contract, keys, members)
    ensures ShapeOk(p.def, p.contract, members)
    ensures Dated(plan.from) && Dated(plan.to) && InYears(plan.from) && InYears(plan.to)
    ensures Ordinal(plan.from) <= Ordinal(plan.to)
  {
    hide Begun, Ordinal, IsSeriesPlan;
    SeriesEnds(p, keyOf, dates, locations, plan, variants, keys, members);
    forall key <- members
      ensures members[key].from == members[key].to && members[key].location != "" && InLoad(p.contract, members[key])
    {
      var d, l := SeriesMember(p, keyOf, dates, locations, plan, variants, keys, members, key);
      assert locations[l] in locations;
      SeriesDay(dates, d);
    }
    forall j <- members, k <- members | j != k
      ensures members[j].from != members[k].from || members[j].location != members[k].location
    {
      var d, l := SeriesMember(p, keyOf, dates, locations, plan, variants, keys, members, j);
      var e, m := SeriesMember(p, keyOf, dates, locations, plan, variants, keys, members, k);
    }
    forall key <- members, day: nat {:trigger Snapshotted(members, members[key].location, day)}
      | Ordinal(p.contract.from) <= day <= Ordinal(p.contract.to)
      ensures Snapshotted(members, members[key].location, day)
    {
      var _, l := SeriesMember(p, keyOf, dates, locations, plan, variants, keys, members, key);
      var d: nat := day - Ordinal(dates[0]);
      SeriesDay(dates, d);
      SeriesMemberAt(p, keyOf, dates, locations, plan, variants, keys, members, d, l);
    }
  }

  lemma SeriesEnds(p: R.Plan, keyOf: KeyRule, dates: seq<CalendarDate>, locations: seq<string>, plan: RequestPlan,
                   variants: seq<string>, keys: seq<string>, members: map<string, Member>)
    requires IsSeriesPlan(keyOf, dates, locations, plan) && Begun(p.def, plan, variants, p.contract, keys, members)
    ensures Contiguous(dates) && dates != [] && p.contract.from == dates[0] && p.contract.to == dates[|dates| - 1]
    ensures plan.from == p.contract.from && plan.to == p.contract.to
    ensures Ordinal(plan.to) == Ordinal(plan.from) + |dates| - 1
    ensures Dated(plan.from) && Dated(plan.to) && InYears(plan.from) && InYears(plan.to)
  {
    hide SourceChunks, VariantsOk, Less, String, Partitions, Ordinal;
    var n, m := |dates| - 1, |locations|;
    SeriesDay(dates, n);
    SeriesMemberAt(p, keyOf, dates, locations, plan, variants, keys, members, 0, 0);
    SeriesMemberAt(p, keyOf, dates, locations, plan, variants, keys, members, n, 0);
    var i := RequestOf(p.def, plan, variants, p.contract, keys, members, keyOf(dates[0], locations[0]));
    var k := RequestOf(p.def, plan, variants, p.contract, keys, members, keyOf(dates[n], locations[0]));
    SourceDates(p.def, plan.requests[i].from, plan.requests[i].to);
    SourceDates(p.def, plan.requests[k].from, plan.requests[k].to);
  }

  // ---------------------------------------------------------------------------------------------------------
  // Results
  // ---------------------------------------------------------------------------------------------------------

  /**
   A load begun from a range plan is accepted exactly when its members were finalized, unless a snapshot definition does
   not spread over locations, in which case it never is.
  */
  lemma RangePlansAreAccepted(p: R.Plan, spread: Spread, locations: seq<string>, accounts: seq<string>, plan: RequestPlan,
                              variants: seq<string>, keys: seq<string>, members: map<string, Member>, events: seq<R.Event>,
                              r: LoadState)
    requires Frozen(locations) && IsRangePlan(spread, locations, accounts, plan.from, plan.to, plan)
    requires Begun(p.def, plan, variants, p.contract, keys, members)
    requires r == R.Run(p, L.NewSystem(members), events).load
    ensures Accepts(p.h, p.def, p.contract, r)
       <==> (p.def.snapshotDate ==> spread == PerLocation)
            && (forall key <- r.members :: r.members[key].status == MemberSuccess)
  {
    hide Begun, IsRangePlan, Accepts, ShapeOk, R.Run, R.Created, Ordinal;
    RangeShape(p, spread, locations, accounts, plan, variants, keys, members);
    BegunIsCreated(p, plan, variants, keys, members);
    R.AcceptsWhenComplete(p, L.NewSystem(members), events, r);
  }

  /** A load begun from a date series is accepted exactly when its members were finalized. */
  lemma SeriesPlansAreAccepted(p: R.Plan, keyOf: KeyRule, dates: seq<CalendarDate>, locations: seq<string>,
                               plan: RequestPlan, variants: seq<string>, keys: seq<string>, members: map<string, Member>,
                               events: seq<R.Event>, r: LoadState)
    requires p.def.snapshotDate && Frozen(locations) && IsSeriesPlan(keyOf, dates, locations, plan)
    requires Begun(p.def, plan, variants, p.contract, keys, members)
    requires r == R.Run(p, L.NewSystem(members), events).load
    ensures Accepts(p.h, p.def, p.contract, r) <==> (forall key <- r.members :: r.members[key].status == MemberSuccess)
  {
    hide Begun, IsSeriesPlan, Accepts, ShapeOk, R.Run, R.Created, Ordinal;
    SeriesShape(p, keyOf, dates, locations, plan, variants, keys, members);
    BegunIsCreated(p, plan, variants, keys, members);
    R.AcceptsWhenComplete(p, L.NewSystem(members), events, r);
  }
}
