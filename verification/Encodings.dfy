/** What is hashed to recognise a plan (ingestion/fixed.go) or a master dataset (ingestion/master.go). */
module Encodings {
  import opened Options
  import opened Framing

  /** A part of a list: its key and its other fields. */
  datatype Entry = Entry(key: Bytes, parts: seq<Bytes>)

  /** Byte order. */
  predicate Less(s: Bytes, t: Bytes) {
    t != [] && (s == [] || s[0] < t[0] || (s[0] == t[0] && Less(s[1..], t[1..])))
  }

  lemma {:induction false} LessOrder(s: Bytes, t: Bytes)
    ensures s == t || Less(s, t) || Less(t, s)
    ensures !(Less(s, t) && Less(t, s)) && !Less(s, s)
  {
    if s != [] && t != [] && s[0] == t[0] {
      LessOrder(s[1..], t[1..]);
      assert s == [s[0]] + s[1..] && t == [t[0]] + t[1..];
    }
    if s != [] && s != t { LessOrder(s[1..], s[1..]); } else if s != [] { LessOrder(s[1..], s[1..]); }
  }

  lemma {:induction false} LessTrans(s: Bytes, t: Bytes, u: Bytes)
    requires Less(s, t) && Less(t, u)
    ensures Less(s, u)
  {
    if s != [] && s[0] == t[0] && t[0] == u[0] { LessTrans(s[1..], t[1..], u[1..]); }
  }

  // ---------------------------------------------------------------------------------------------------------
  // Sorting by key
  // ---------------------------------------------------------------------------------------------------------

  function Insert(e: Entry, sorted: seq<Entry>): seq<Entry> {
    if sorted == [] || Less(e.key, sorted[0].key) then [e] + sorted
    else [sorted[0]] + Insert(e, sorted[1..])
  }

  function Sort(entries: seq<Entry>): seq<Entry> {
    if entries == [] then [] else Insert(entries[0], Sort(entries[1..]))
  }

  ghost predicate Distinct(entries: seq<Entry>) {
    forall i, j | 0 <= i < j < |entries| :: entries[i].key != entries[j].key
  }

  ghost predicate Ascending(entries: seq<Entry>) {
    forall i, j | 0 <= i < j < |entries| :: Less(entries[i].key, entries[j].key)
  }

  lemma {:induction false} InsertPermutes(e: Entry, sorted: seq<Entry>)
    ensures multiset(Insert(e, sorted)) == multiset(sorted) + multiset{e}
  {
    if sorted == [] || Less(e.key, sorted[0].key) {
      assert multiset([e] + sorted) == multiset{e} + multiset(sorted);
    } else {
      InsertPermutes(e, sorted[1..]);
      assert sorted == [sorted[0]] + sorted[1..];
    }
  }

  lemma {:induction false} SortPermutes(entries: seq<Entry>)
    ensures multiset(Sort(entries)) == multiset(entries)
  {
    if entries != [] {
      SortPermutes(entries[1..]);
      InsertPermutes(entries[0], Sort(entries[1..]));
      assert entries == [entries[0]] + entries[1..];
    }
  }

  lemma {:induction false} InsertAscends(e: Entry, sorted: seq<Entry>)
    requires Ascending(sorted) && forall s <- sorted :: s.key != e.key
    ensures Ascending(Insert(e, sorted))
  {
    var r := Insert(e, sorted);
    if sorted == [] {
    } else if Less(e.key, sorted[0].key) {
      forall j | 0 < j < |r| ensures Less(e.key, r[j].key) {
        if j > 1 { LessTrans(e.key, sorted[0].key, sorted[j - 1].key); }
      }
    } else {
      LessOrder(e.key, sorted[0].key);
      InsertAscends(e, sorted[1..]);
      var rest := Insert(e, sorted[1..]);
      InsertPermutes(e, sorted[1..]);
      forall j | 0 <= j < |rest| ensures Less(sorted[0].key, rest[j].key) {
        assert rest[j] in multiset(rest);
        assert rest[j] == e || rest[j] in sorted[1..];
      }
    }
  }

  lemma {:induction false} SortAscends(entries: seq<Entry>)
    requires Distinct(entries)
    ensures Ascending(Sort(entries))
  {
    if entries != [] {
      SortAscends(entries[1..]);
      SortPermutes(entries[1..]);
      forall s <- Sort(entries[1..]) ensures s.key != entries[0].key {
        assert s in multiset(Sort(entries[1..]));
        assert s in entries[1..];
      }
      InsertAscends(entries[0], Sort(entries[1..]));
    }
  }

  lemma HeadsAgree(a: seq<Entry>, b: seq<Entry>)
    requires Ascending(a) && Ascending(b) && multiset(a) == multiset(b) && a != []
    ensures b != [] && a[0] == b[0]
  {
    hide Less;
    assert a[0] in multiset(b);
    assert b[0] in multiset(a);
    var i :| 0 <= i < |b| && b[i] == a[0];
    var j :| 0 <= j < |a| && a[j] == b[0];
    LessOrder(a[0].key, b[0].key);
  }

  /** An ascending list is determined by what it holds. */
  lemma {:induction false} AscendingIsUnique(a: seq<Entry>, b: seq<Entry>)
    requires Ascending(a) && Ascending(b) && multiset(a) == multiset(b)
    ensures a == b
    decreases |a|
  {
    hide Less;
    assert |multiset(a)| == |a| && |multiset(b)| == |b|;
    if a != [] {
      HeadsAgree(a, b);
      assert a == [a[0]] + a[1..] && b == [b[0]] + b[1..];
      assert multiset(a[1..]) == multiset(a) - multiset{a[0]} && multiset(b[1..]) == multiset(b) - multiset{b[0]};
      AscendingIsUnique(a[1..], b[1..]);
    }
  }

  lemma SortIgnoresOrder(a: seq<Entry>, b: seq<Entry>)
    requires Distinct(a) && Distinct(b) && multiset(a) == multiset(b)
    ensures Sort(a) == Sort(b)
  {
    SortPermutes(a);
    SortPermutes(b);
    SortAscends(a);
    SortAscends(b);
    AscendingIsUnique(Sort(a), Sort(b));
  }

  // ---------------------------------------------------------------------------------------------------------
  // Lists of framed entries
  // ---------------------------------------------------------------------------------------------------------

  function Flat(entries: seq<Entry>): seq<Bytes> {
    if entries == [] then [] else [entries[0].key] + entries[0].parts + Flat(entries[1..])
  }

  ghost predicate Uniform(entries: seq<Entry>, parts: nat) {
    forall e <- entries :: |e.parts| == parts
  }

  ghost predicate ShortEntries(entries: seq<Entry>, width: nat) {
    forall e <- entries :: |e.key| < Power256(width) && Short(e.parts, width)
  }

  lemma {:induction false} FlatInjective(a: seq<Entry>, b: seq<Entry>, parts: nat)
    requires Uniform(a, parts) && Uniform(b, parts) && Flat(a) == Flat(b)
    ensures a == b
    decreases |a|
  {
    if a != [] && b != [] {
      var x, y := Flat(a), Flat(b);
      assert a[0] in a && b[0] in b;
      assert x[0] == a[0].key && x[1..parts + 1] == a[0].parts && x[parts + 1..] == Flat(a[1..]);
      assert y[0] == b[0].key && y[1..parts + 1] == b[0].parts && y[parts + 1..] == Flat(b[1..]);
      FlatInjective(a[1..], b[1..], parts);
      assert a == [a[0]] + a[1..] && b == [b[0]] + b[1..];
    }
  }

  lemma {:induction false} FlatIsShort(entries: seq<Entry>, width: nat)
    requires ShortEntries(entries, width)
    ensures Short(Flat(entries), width)
  {
    if entries != [] {
      FlatIsShort(entries[1..], width);
      assert entries[0] in entries;
    }
  }

  /** Sorting keeps what the encodings need of the entries. */
  lemma SortedShape(entries: seq<Entry>, parts: nat, width: nat)
    requires Uniform(entries, parts) && ShortEntries(entries, width)
    ensures Uniform(Sort(entries), parts) && ShortEntries(Sort(entries), width) && |Sort(entries)| == |entries|
  {
    SortPermutes(entries);
    assert |multiset(Sort(entries))| == |Sort(entries)| && |multiset(entries)| == |entries|;
    forall e <- Sort(entries) ensures e in entries { assert e in multiset(Sort(entries)); }
  }

  lemma SameSorted(a: seq<Entry>, b: seq<Entry>)
    requires Sort(a) == Sort(b)
    ensures multiset(a) == multiset(b)
  {
    SortPermutes(a);
    SortPermutes(b);
  }

  // ---------------------------------------------------------------------------------------------------------
  // The manifest of a Fixed plan
  // ---------------------------------------------------------------------------------------------------------

  const MANIFEST_VERSION: nat := 2
  const MANIFEST_WIDTH: nat := 4
  const HEADER_FIELDS: nat := 10
  const MEMBER_PARTS: nat := 4

  /**
   `complete` says that the plan is for this definition's job and requires all members; `fields` are the ten texts of
   the header; a member's parts are its dates, location and account.
  */
  datatype Plan = Plan(complete: bool, fields: seq<Bytes>, maxDays: nat, variants: seq<Bytes>, members: seq<Entry>)

  function Manifest(tag: Bytes, p: Plan): Bytes {
    tag + BigEndian(MANIFEST_VERSION, 2) + Frames(p.fields, MANIFEST_WIDTH) + BigEndian(p.maxDays, 4)
    + (BigEndian(|p.variants|, 4) + Frames(p.variants, MANIFEST_WIDTH))
    + (BigEndian(|p.members|, 4) + Frames(Flat(Sort(p.members)), MANIFEST_WIDTH))
  }

  /** What the function accepts: members, each with a key of its own. */
  ghost predicate Accepted(p: Plan) {
    && p.complete
    && p.members != []
    && Distinct(p.members)
    && (forall m <- p.members :: m.key != [])
    && |p.fields| == HEADER_FIELDS
    && Uniform(p.members, MEMBER_PARTS)
  }

  /** Lengths and counts that fit 32 bits. */
  ghost predicate Sized(p: Plan) {
    && Short(p.fields, 4) && Short(p.variants, 4) && ShortEntries(p.members, 4)
    && p.maxDays < Power256(4) && |p.variants| < Power256(4) && |p.members| < Power256(4)
  }

  /** Two plans have the same manifest exactly if they differ at most in the order of their members. */
  lemma ManifestForgetsOnlyOrder(tag: Bytes, p: Plan, q: Plan)
    requires Accepted(p) && Accepted(q) && Sized(p) && Sized(q)
    ensures Manifest(tag, p) == Manifest(tag, q)
       <==> p.fields == q.fields && p.maxDays == q.maxDays && p.variants == q.variants
            && multiset(p.members) == multiset(q.members)
  {
    if multiset(p.members) == multiset(q.members) {
      SortIgnoresOrder(p.members, q.members);
      assert |multiset(p.members)| == |p.members| && |multiset(q.members)| == |q.members|;
    }
    if Manifest(tag, p) == Manifest(tag, q) {
      ManifestInjective(tag, p, q);
    }
  }

  lemma ManifestInjective(tag: Bytes, p: Plan, q: Plan)
    requires Accepted(p) && Accepted(q) && Sized(p) && Sized(q) && Manifest(tag, p) == Manifest(tag, q)
    ensures p.fields == q.fields && p.maxDays == q.maxDays && p.variants == q.variants
    ensures multiset(p.members) == multiset(q.members)
  {
    hide Frames, BigEndian, Sort, Flat, Short, Distinct;
    var head := tag + BigEndian(MANIFEST_VERSION, 2);
    var membersP := BigEndian(|p.members|, 4) + Frames(Flat(Sort(p.members)), 4);
    var membersQ := BigEndian(|q.members|, 4) + Frames(Flat(Sort(q.members)), 4);
    var variantsP := BigEndian(|p.variants|, 4) + Frames(p.variants, 4);
    var variantsQ := BigEndian(|q.variants|, 4) + Frames(q.variants, 4);
    assert Manifest(tag, p) == head + (Frames(p.fields, 4) + (BigEndian(p.maxDays, 4) + (variantsP + membersP)));
    assert Manifest(tag, q) == head + (Frames(q.fields, 4) + (BigEndian(q.maxDays, 4) + (variantsQ + membersQ)));
    Split(head, head, Frames(p.fields, 4) + (BigEndian(p.maxDays, 4) + (variantsP + membersP)),
          Frames(q.fields, 4) + (BigEndian(q.maxDays, 4) + (variantsQ + membersQ)));
    FramesPrefix(p.fields, q.fields, 4, BigEndian(p.maxDays, 4) + (variantsP + membersP),
                 BigEndian(q.maxDays, 4) + (variantsQ + membersQ));
    NumberPrefix(p.maxDays, q.maxDays, 4, variantsP + membersP, variantsQ + membersQ);
    Associate(BigEndian(|p.variants|, 4), Frames(p.variants, 4), membersP);
    Associate(BigEndian(|q.variants|, 4), Frames(q.variants, 4), membersQ);
    NumberPrefix(|p.variants|, |q.variants|, 4, Frames(p.variants, 4) + membersP, Frames(q.variants, 4) + membersQ);
    FramesPrefix(p.variants, q.variants, 4, membersP, membersQ);
    NumberPrefix(|p.members|, |q.members|, 4, Frames(Flat(Sort(p.members)), 4), Frames(Flat(Sort(q.members)), 4));
    EntriesInjective(p.members, q.members, MEMBER_PARTS, 4);
  }

  lemma EntriesInjective(a: seq<Entry>, b: seq<Entry>, parts: nat, width: nat)
    requires Uniform(a, parts) && Uniform(b, parts) && ShortEntries(a, width) && ShortEntries(b, width) && width > 0
    requires Frames(Flat(Sort(a)), width) == Frames(Flat(Sort(b)), width)
    ensures multiset(a) == multiset(b)
  {
    SortedShape(a, parts, width);
    SortedShape(b, parts, width);
    FlatIsShort(Sort(a), width);
    FlatIsShort(Sort(b), width);
    FramesInjective(Flat(Sort(a)), Flat(Sort(b)), width);
    FlatInjective(Sort(a), Sort(b), parts);
    SameSorted(a, b);
  }

  /** Writes the manifest, refusing blank and repeated member keys. */
  method EncodeManifest(tag: Bytes, p: Plan) returns (r: Option<Bytes>)
    requires |p.fields| == HEADER_FIELDS && Uniform(p.members, MEMBER_PARTS)
    ensures r == if Accepted(p) then Some(Manifest(tag, p)) else None
  {
    hide Manifest, Frames, Flat, Sort, Uniform;
    if !p.complete || p.members == [] { return None; }
    var seen: set<Bytes> := {};
    for k := 0 to |p.members|
      invariant forall key :: key in seen <==> exists j | 0 <= j < k :: p.members[j].key == key
      invariant forall j | 0 <= j < k :: p.members[j].key != []
      invariant forall i, j | 0 <= i < j < k :: p.members[i].key != p.members[j].key
    {
      var key := p.members[k].key;
      if key == [] || key in seen { return None; }
      seen := seen + {key};
    }
    var encoded := tag + BigEndian(MANIFEST_VERSION, 2);
    encoded := WriteFrames(encoded, p.fields);
    encoded := encoded + BigEndian(p.maxDays, 4);
    var variants := WriteFrames(BigEndian(|p.variants|, 4), p.variants);
    encoded := encoded + variants;
    var members := WriteFrames(BigEndian(|p.members|, 4), Flat(Sort(p.members)));
    encoded := encoded + members;
    ManifestIs(tag, p);
    return Some(encoded);
  }

  lemma ManifestIs(tag: Bytes, p: Plan)
    ensures Manifest(tag, p) ==
      tag + BigEndian(MANIFEST_VERSION, 2) + Frames(p.fields, MANIFEST_WIDTH) + BigEndian(p.maxDays, 4)
      + (BigEndian(|p.variants|, 4) + Frames(p.variants, MANIFEST_WIDTH))
      + (BigEndian(|p.members|, 4) + Frames(Flat(Sort(p.members)), MANIFEST_WIDTH))
  {
  }

  method WriteFrames(start: Bytes, texts: seq<Bytes>) returns (r: Bytes)
    ensures r == start + Frames(texts, MANIFEST_WIDTH)
  {
    r := start;
    for k := 0 to |texts|
      invariant r == start + Frames(texts[..k], MANIFEST_WIDTH)
    {
      assert texts[..k + 1][..k] == texts[..k];
      r := r + BigEndian(|texts[k]|, MANIFEST_WIDTH);
      r := r + texts[k];
    }
    assert texts[..|texts|] == texts;
  }

  // ---------------------------------------------------------------------------------------------------------
  // Reference and Marketing masters: fields with 64-bit lengths
  // ---------------------------------------------------------------------------------------------------------

  const FIELD_WIDTH: nat := 8

  /** Tag, shape, code, description and raw payload of an item; or tag and the texts of a Marketing entity. */
  lemma RecordInjective(a: seq<Bytes>, b: seq<Bytes>)
    requires Short(a, FIELD_WIDTH) && Short(b, FIELD_WIDTH)
    ensures Frames(a, FIELD_WIDTH) == Frames(b, FIELD_WIDTH) <==> a == b
  {
    if Frames(a, FIELD_WIDTH) == Frames(b, FIELD_WIDTH) { FramesInjective(a, b, FIELD_WIDTH); }
  }

  /** Keys with checksums, by key: the encoding of a Reference or Marketing dataset. */
  function Dataset(tag: Bytes, entries: seq<Entry>): Bytes {
    Frame(tag, FIELD_WIDTH) + Frames(Flat(Sort(entries)), FIELD_WIDTH)
  }

  lemma DatasetForgetsOnlyOrder(tag: Bytes, a: seq<Entry>, b: seq<Entry>)
    requires Distinct(a) && Distinct(b) && Uniform(a, 1) && Uniform(b, 1)
    requires ShortEntries(a, FIELD_WIDTH) && ShortEntries(b, FIELD_WIDTH)
    ensures Dataset(tag, a) == Dataset(tag, b) <==> multiset(a) == multiset(b)
  {
    hide Frame;
    if multiset(a) == multiset(b) { SortIgnoresOrder(a, b); }
    if Dataset(tag, a) == Dataset(tag, b) {
      Split(Frame(tag, FIELD_WIDTH), Frame(tag, FIELD_WIDTH), Frames(Flat(Sort(a)), FIELD_WIDTH),
            Frames(Flat(Sort(b)), FIELD_WIDTH));
      EntriesInjective(a, b, 1, FIELD_WIDTH);
    }
  }

  /** An item of a category in its encoding; its key is the big-endian ordinal, whose byte order is the order of numbers. */
  datatype Category = Category(key: Bytes, shape: Bytes, sourceItems: nat, items: nat, discarded: nat, list: seq<Entry>)

  function CategoryHead(tag: Bytes, c: Category): Bytes {
    Frames([tag, c.key, c.shape], FIELD_WIDTH)
    + (BigEndian(c.sourceItems, 8) + (BigEndian(c.items, 8) + BigEndian(c.discarded, 8)))
  }

  function ItemList(entries: seq<Entry>): Bytes {
    if entries == [] then []
    else entries[0].key + (Frames(entries[0].parts, FIELD_WIDTH) + ItemList(entries[1..]))
  }

  function CategoryBytes(tag: Bytes, c: Category): Bytes {
    CategoryHead(tag, c) + ItemList(Sort(c.list))
  }

  ghost predicate CategoryOk(tag: Bytes, c: Category) {
    && |tag| < Power256(8) && |c.key| < Power256(8) && |c.shape| < Power256(8)
    && c.sourceItems < Power256(8) && c.items < Power256(8) && c.discarded < Power256(8)
    && Distinct(c.list) && Uniform(c.list, 1) && ShortEntries(c.list, FIELD_WIDTH)
    && (forall e <- c.list :: |e.key| == 8)
  }

  lemma {:induction false} ItemListInjective(a: seq<Entry>, b: seq<Entry>)
    requires Uniform(a, 1) && Uniform(b, 1) && ShortEntries(a, FIELD_WIDTH) && ShortEntries(b, FIELD_WIDTH)
    requires (forall e <- a :: |e.key| == 8) && (forall e <- b :: |e.key| == 8)
    requires ItemList(a) == ItemList(b)
    ensures a == b
    decreases |a|
  {
    hide Frames;
    if a != [] && b != [] {
      assert a[0] in a && b[0] in b;
      var restA, restB := Frames(a[0].parts, 8) + ItemList(a[1..]), Frames(b[0].parts, 8) + ItemList(b[1..]);
      Split(a[0].key, b[0].key, restA, restB);
      FramesPrefix(a[0].parts, b[0].parts, 8, ItemList(a[1..]), ItemList(b[1..]));
      ItemListInjective(a[1..], b[1..]);
      assert a == [a[0]] + a[1..] && b == [b[0]] + b[1..];
    }
  }

  lemma CategoryHeadPrefix(tag: Bytes, a: Category, b: Category, u: Bytes, v: Bytes)
    requires CategoryOk(tag, a) && CategoryOk(tag, b) && CategoryHead(tag, a) + u == CategoryHead(tag, b) + v
    ensures a == b.(list := a.list) && u == v
  {
    hide Frames, BigEndian, Distinct, Uniform, ShortEntries;
    var x, y := [tag, a.key, a.shape], [tag, b.key, b.shape];
    var a1, b1 := BigEndian(a.discarded, 8) + u, BigEndian(b.discarded, 8) + v;
    var a2, b2 := BigEndian(a.items, 8) + a1, BigEndian(b.items, 8) + b1;
    var a3, b3 := BigEndian(a.sourceItems, 8) + a2, BigEndian(b.sourceItems, 8) + b2;
    assert CategoryHead(tag, a) + u == Frames(x, 8) + a3;
    assert CategoryHead(tag, b) + v == Frames(y, 8) + b3;
    FramesPrefix(x, y, 8, a3, b3);
    assert x[1] == y[1] && x[2] == y[2];
    NumberPrefix(a.sourceItems, b.sourceItems, 8, a2, b2);
    NumberPrefix(a.items, b.items, 8, a1, b1);
    NumberPrefix(a.discarded, b.discarded, 8, u, v);
  }

  /** Two categories have the same encoding exactly if they differ at most in the order of their items. */
  lemma CategoryForgetsOnlyOrder(tag: Bytes, a: Category, b: Category)
    requires CategoryOk(tag, a) && CategoryOk(tag, b)
    ensures CategoryBytes(tag, a) == CategoryBytes(tag, b)
       <==> a == b.(list := a.list) && multiset(a.list) == multiset(b.list)
  {
    hide CategoryHead, ItemList;
    if multiset(a.list) == multiset(b.list) { SortIgnoresOrder(a.list, b.list); }
    if a == b.(list := a.list) { SameHead(tag, a, b); }
    if CategoryBytes(tag, a) == CategoryBytes(tag, b) {
      CategoryHeadPrefix(tag, a, b, ItemList(Sort(a.list)), ItemList(Sort(b.list)));
      SortedShape(a.list, 1, 8);
      SortedShape(b.list, 1, 8);
      SortedKeys(a.list);
      SortedKeys(b.list);
      ItemListInjective(Sort(a.list), Sort(b.list));
      SameSorted(a.list, b.list);
    }
  }

  lemma SameHead(tag: Bytes, a: Category, b: Category)
    requires a == b.(list := a.list)
    ensures CategoryHead(tag, a) == CategoryHead(tag, b)
  {
  }

  lemma SortedKeys(entries: seq<Entry>)
    requires forall e <- entries :: |e.key| == 8
    ensures forall e <- Sort(entries) :: |e.key| == 8
  {
    SortPermutes(entries);
    forall e <- Sort(entries) ensures e in entries { assert e in multiset(Sort(entries)); }
  }

  /** Sorting items by the bytes of their ordinals is sorting them by their ordinals. */
  lemma {:induction false} OrdinalOrder(m: nat, n: nat, width: nat)
    requires m < Power256(width) && n < Power256(width)
    ensures Less(BigEndian(m, width), BigEndian(n, width)) <==> m < n
  {
    if width > 0 {
      OrdinalOrder(m / 256, n / 256, width - 1);
      LessLast(BigEndian(m / 256, width - 1), BigEndian(n / 256, width - 1), (m % 256) as Byte, (n % 256) as Byte);
      if BigEndian(m / 256, width - 1) == BigEndian(n / 256, width - 1) { BigEndianInjective(m / 256, n / 256, width - 1); }
    }
  }

  lemma {:induction false} LessLast(s: Bytes, t: Bytes, x: Byte, y: Byte)
    requires |s| == |t|
    ensures Less(s + [x], t + [y]) <==> Less(s, t) || (s == t && x < y)
  {
    if s == [] {
      assert s + [x] == [x] && t + [y] == [y];
    } else {
      assert (s + [x])[1..] == s[1..] + [x] && (t + [y])[1..] == t[1..] + [y];
      LessLast(s[1..], t[1..], x, y);
      assert s == [s[0]] + s[1..] && t == [t[0]] + t[1..];
    }
  }
}
