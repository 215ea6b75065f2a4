/** Publishing Detail and Master candidates. */
module Merge {
  // Delete what is missing, refresh what is unchanged, update what changed, insert what is new.

  import opened Options

  type Time = int

  /** The business columns, the checksum and raw payload, and when the row was last fetched. */
  datatype Content = Content(fields: seq<string>, checksum: string, payload: string)
  datatype Row = Row(content: Content, fetched: Option<Time>, updated: Time)
  datatype Candidate = Candidate(content: Content, fetched: Option<Time>)

  /** How the database compares two rows' columns: texts compare by their collation, so unequal ones may be the same. */
  type Same = (seq<string>, seq<string>) -> bool

  /** How a table tells a changed row: any column or the binary checksum, the columns alone, or the checksum alone. */
  datatype Comparison = ByColumnsAndChecksum(same: Same) | ByColumns(same: Same) | ByChecksum

  predicate Differs(how: Comparison, a: Content, b: Content) {
    match how
    case ByColumnsAndChecksum(same) => a.checksum != b.checksum || !same(a.fields, b.fields)
    case ByColumns(same) => !same(a.fields, b.fields)
    case ByChecksum => a.checksum != b.checksum
  }

  ghost predicate Reflexive(how: Comparison) {
    !how.ByChecksum? ==> forall fields :: how.same(fields, fields)
  }

  // ---------------------------------------------------------------------------------------------------------
  // The statements
  // ---------------------------------------------------------------------------------------------------------

  /** Deletes the rows of the scope that the candidate lacks. */
  function DeleteMissing<K>(final: map<K, Row>, candidate: map<K, Candidate>, scope: K -> bool): map<K, Row> {
    map k | k in final && (scope(k) ==> k in candidate) :: final[k]
  }

  /** Only the fetch time moves; updated_at is assigned to itself. */
  function RefreshUnchanged<K>(how: Comparison, final: map<K, Row>, candidate: map<K, Candidate>): map<K, Row> {
    map k | k in final ::
      if k in candidate && !Differs(how, final[k].content, candidate[k].content) then
        final[k].(fetched := candidate[k].fetched)
      else final[k]
  }

  /** Every column is assigned, and the database moves updated_at. */
  function UpdateChanged<K>(how: Comparison, final: map<K, Row>, candidate: map<K, Candidate>, now: Time): map<K, Row> {
    map k | k in final ::
      if k in candidate && Differs(how, final[k].content, candidate[k].content) then
        Row(candidate[k].content, candidate[k].fetched, now)
      else final[k]
  }

  function InsertNew<K>(final: map<K, Row>, candidate: map<K, Candidate>, now: Time): map<K, Row> {
    final + map k | k in candidate && k !in final :: Row(candidate[k].content, candidate[k].fetched, now)
  }

  function Upsert<K>(how: Comparison, refreshes: bool, final: map<K, Row>, candidate: map<K, Candidate>, now: Time)
    : map<K, Row>
  {
    var refreshed := if refreshes then RefreshUnchanged(how, final, candidate) else final;
    InsertNew(UpdateChanged(how, refreshed, candidate, now), candidate, now)
  }

  function Merge<K>(how: Comparison, refreshes: bool, final: map<K, Row>, candidate: map<K, Candidate>, scope: K -> bool,
                    now: Time): map<K, Row> {
    Upsert(how, refreshes, DeleteMissing(final, candidate, scope), candidate, now)
  }

  // ---------------------------------------------------------------------------------------------------------
  // The plain replacement
  // ---------------------------------------------------------------------------------------------------------

  /** Wiping the scope and copying the candidate, except that an unchanged row keeps its updated_at. */
  function Replaced<K>(final: map<K, Row>, candidate: map<K, Candidate>, scope: K -> bool, now: Time): map<K, Row> {
    (map k | k in final && !scope(k) :: final[k])
    + map k | k in candidate :: ReplacedRow(final, candidate, now, k)
  }

  function ReplacedRow<K>(final: map<K, Row>, candidate: map<K, Candidate>, now: Time, k: K): Row
    requires k in candidate
  {
    Row(candidate[k].content, candidate[k].fetched,
        if k in final && final[k].content == candidate[k].content then final[k].updated else now)
  }

  ghost predicate Scoped<K(!new)>(candidate: map<K, Candidate>, scope: K -> bool) {
    forall k <- candidate :: scope(k)
  }

  /** Rows that compare as unchanged are unchanged. */
  ghost predicate Telling<K(!new)>(how: Comparison, final: map<K, Row>, candidate: map<K, Candidate>) {
    forall k | k in final && k in candidate ::
      !Differs(how, final[k].content, candidate[k].content) ==> final[k].content == candidate[k].content
  }

  /** A table without fetch times has none on either side. */
  ghost predicate Unfetched<K(!new)>(final: map<K, Row>, candidate: map<K, Candidate>) {
    (forall k <- final :: final[k].fetched.None?) && (forall k <- candidate :: candidate[k].fetched.None?)
  }

  /** The row a merge leaves for a candidate. */
  function MergedRow<K>(how: Comparison, final: map<K, Row>, candidate: map<K, Candidate>, now: Time, k: K): Row
    requires k in candidate
  {
    var c := candidate[k];
    if k !in final || Differs(how, final[k].content, c.content) then Row(c.content, c.fetched, now)
    else Row(final[k].content, c.fetched, final[k].updated)
  }

  lemma MergeAt<K(!new)>(how: Comparison, refreshes: bool, final: map<K, Row>, candidate: map<K, Candidate>,
                         scope: K -> bool, now: Time, k: K)
    requires Scoped(candidate, scope) && (refreshes || Unfetched(final, candidate))
    ensures var merged := Merge(how, refreshes, final, candidate, scope, now);
            && (k in merged <==> k in candidate || (k in final && !scope(k)))
            && (k in merged ==> merged[k] == if k in candidate then MergedRow(how, final, candidate, now, k) else final[k])
  {
    var kept := DeleteMissing(final, candidate, scope);
    var refreshed := if refreshes then RefreshUnchanged(how, kept, candidate) else kept;
    assert k in refreshed <==> k in final && (scope(k) ==> k in candidate);
    assert k in refreshed ==> refreshed[k].content == final[k].content && refreshed[k].updated == final[k].updated;
    assert k in refreshed && k !in candidate ==> refreshed[k] == final[k];
  }

  lemma ReplacedAt<K>(final: map<K, Row>, candidate: map<K, Candidate>, scope: K -> bool, now: Time, k: K)
    ensures var replaced := Replaced(final, candidate, scope, now);
            && (k in replaced <==> k in candidate || (k in final && !scope(k)))
            && (k in replaced && k !in candidate ==> replaced[k] == final[k])
            && (k in candidate ==> replaced[k] == ReplacedRow(final, candidate, now, k))
  {
  }

  /** The merge is the plain replacement exactly when the comparison tells the rows it is given apart. */
  lemma MergeIsReplacement<K(!new)>(how: Comparison, refreshes: bool, final: map<K, Row>, candidate: map<K, Candidate>,
                                    scope: K -> bool, now: Time)
    requires Reflexive(how) && Scoped(candidate, scope) && (refreshes || Unfetched(final, candidate))
    ensures Merge(how, refreshes, final, candidate, scope, now) == Replaced(final, candidate, scope, now)
       <==> Telling(how, final, candidate)
  {
    hide Merge, Replaced, Scoped, Unfetched, Reflexive, Differs;
    var merged, replaced := Merge(how, refreshes, final, candidate, scope, now), Replaced(final, candidate, scope, now);
    forall k
      ensures k in merged <==> k in replaced
      ensures k in final && k in candidate ==>
        k in merged && (merged[k] == replaced[k] <==>
          (!Differs(how, final[k].content, candidate[k].content) ==> final[k].content == candidate[k].content))
      ensures k in merged && !(k in final && k in candidate) ==> merged[k] == replaced[k]
    {
      MergeAt(how, refreshes, final, candidate, scope, now, k);
      ReplacedAt(final, candidate, scope, now, k);
      Equal(how, if k in final then final[k].content else Content([], "", ""));
    }
  }

  lemma Equal(how: Comparison, c: Content)
    requires Reflexive(how)
    ensures !Differs(how, c, c)
  {
  }

  /** The same rows of the candidate's keys, and the same rows left alone, make the same replacement. */
  lemma SameReplacement<K(!new)>(a: map<K, Row>, b: map<K, Row>, candidate: map<K, Candidate>, scopeA: K -> bool,
                                 scopeB: K -> bool, now: Time)
    requires forall k <- candidate :: k in a <==> k in b
    requires forall k <- candidate :: k in a ==> a[k] == b[k]
    requires forall k | k !in candidate :: (k in a && !scopeA(k)) <==> (k in b && !scopeB(k))
    requires forall k | k !in candidate && k in a && !scopeA(k) :: a[k] == b[k]
    ensures Replaced(a, candidate, scopeA, now) == Replaced(b, candidate, scopeB, now)
  {
    hide Replaced;
    var x, y := Replaced(a, candidate, scopeA, now), Replaced(b, candidate, scopeB, now);
    forall k ensures k in x <==> k in y
             ensures k in x ==> x[k] == y[k]
    {
      ReplacedAt(a, candidate, scopeA, now, k);
      ReplacedAt(b, candidate, scopeB, now, k);
    }
  }

  /** updated_at is kept on exactly the rows whose content stays. */
  lemma UpdatedAtTellsChange<K(!new)>(how: Comparison, refreshes: bool, final: map<K, Row>, candidate: map<K, Candidate>,
                                      scope: K -> bool, now: Time, k: K)
    requires Reflexive(how) && Scoped(candidate, scope) && (refreshes || Unfetched(final, candidate))
    requires Telling(how, final, candidate) && k in candidate
    requires k in final ==> final[k].updated < now
    ensures var merged := Merge(how, refreshes, final, candidate, scope, now);
            && k in merged
            && merged[k].content == candidate[k].content && merged[k].fetched == candidate[k].fetched
            && (merged[k].updated == now <==> !(k in final && final[k].content == candidate[k].content))
            && (k in final && final[k].content == candidate[k].content ==> merged[k].updated == final[k].updated)
  {
    MergeIsReplacement(how, refreshes, final, candidate, scope, now);
  }

  function All<K>(): K -> bool { k => true }

  /** What a merge leaves of a table whose candidate is complete. */
  function Merged<K>(how: Comparison, final: map<K, Row>, candidate: map<K, Candidate>, now: Time): map<K, Row> {
    map k | k in candidate :: MergedRow(how, final, candidate, now, k)
  }

  lemma MergedIsReplacement<K(!new)>(how: Comparison, final: map<K, Row>, candidate: map<K, Candidate>, now: Time)
    requires Reflexive(how)
    ensures Merged(how, final, candidate, now) == Replaced(final, candidate, All(), now) <==> Telling(how, final, candidate)
  {
    hide Replaced, Reflexive, Differs;
    var merged, replaced := Merged(how, final, candidate, now), Replaced(final, candidate, All(), now);
    forall k
      ensures k in merged <==> k in replaced
      ensures k in final && k in candidate ==>
        (merged[k] == replaced[k] <==>
          (!Differs(how, final[k].content, candidate[k].content) ==> final[k].content == candidate[k].content))
      ensures k in merged && k !in final ==> merged[k] == replaced[k]
    {
      ReplacedAt(final, candidate, All(), now, k);
      Equal(how, if k in final then final[k].content else Content([], "", ""));
    }
  }

  /** The row and its checksum come from the same raw data. */
  ghost predicate FromRaw(hash: string -> string, read: string -> Content, c: Content) {
    exists raw :: read(raw) == c && hash(raw) == c.checksum
  }

  ghost predicate Injective(hash: string -> string) {
    forall a, b :: hash(a) == hash(b) ==> a == b
  }

  /** Binary checksums tell rows apart however the columns compare. */
  lemma ChecksumsTell<K(!new)>(how: Comparison, hash: string -> string, read: string -> Content,
                               final: map<K, Row>, candidate: map<K, Candidate>, now: Time)
    requires !how.ByColumns? && Reflexive(how) && Injective(hash)
    requires forall k <- final :: FromRaw(hash, read, final[k].content)
    requires forall k <- candidate :: FromRaw(hash, read, candidate[k].content)
    ensures Telling(how, final, candidate)
    ensures Merged(how, final, candidate, now) == Replaced(final, candidate, All(), now)
  {
    hide Merged, Replaced, Reflexive;
    MergedIsReplacement(how, final, candidate, now);
  }

  // ---------------------------------------------------------------------------------------------------------
  // A Detail domain: parents, one-to-one extensions and numbered children
  // ---------------------------------------------------------------------------------------------------------

  type Id = string
  datatype ChildKey = ChildKey(parent: Id, index: nat)

  /** A domain's tables, each with the comparison of its columns; not every child table has a fetch time. */
  datatype ChildSpec = ChildSpec(same: Same, fetched: bool)
  datatype Spec = Spec(parents: Same, extensions: seq<Same>, children: seq<ChildSpec>)

  datatype Tables = Tables(
    parents: map<Id, Row>, extensions: seq<map<Id, Row>>, children: seq<map<ChildKey, Row>>)
  datatype Candidates = Candidates(
    parents: map<Id, Candidate>, extensions: seq<map<Id, Candidate>>, children: seq<map<ChildKey, Candidate>>)

  /** The foreign keys of extensions and children to their parents. */
  ghost predicate Owned(t: Tables) {
    && (forall e, k | e in t.extensions && k in e :: k in t.parents)
    && (forall c, k | c in t.children && k in c :: k.parent in t.parents)
  }

  ghost predicate CandidatesOwned(c: Candidates) {
    && (forall e, k | e in c.extensions && k in e :: k in c.parents)
    && (forall d, k | d in c.children && k in d :: k.parent in c.parents)
  }

  /** Deleting parents deletes what refers to them. */
  function CascadeExtension(rows: map<Id, Row>, parents: map<Id, Row>): map<Id, Row> {
    map k | k in rows && k in parents :: rows[k]
  }

  function CascadeChildren(rows: map<ChildKey, Row>, parents: map<Id, Row>): map<ChildKey, Row> {
    map k | k in rows && k.parent in parents :: rows[k]
  }

  /** The extension rows are deleted only where the candidate has their parent. */
  function ReconcileExtension(same: Same, rows: map<Id, Row>, parents: map<Id, Candidate>, candidate: map<Id, Candidate>,
                              now: Time): map<Id, Row> {
    Merge(ByColumns(same), false, rows, candidate, k => k in parents, now)
  }

  function ReconcileChildren(child: ChildSpec, rows: map<ChildKey, Row>, parents: map<Id, Candidate>,
                             candidate: map<ChildKey, Candidate>, now: Time): map<ChildKey, Row> {
    Merge(ByColumnsAndChecksum(child.same), child.fetched, rows, candidate, (k: ChildKey) => k.parent in parents, now)
  }

  /** The extension is the candidate's exactly when every row that compares the same as its candidate equals it. */
  lemma ExtensionIsReplaced(same: Same, rows: map<Id, Row>, parents: map<Id, Row>, kept: map<Id, Row>,
                            candidates: map<Id, Candidate>, candidate: map<Id, Candidate>, now: Time)
    requires Reflexive(ByColumns(same))
    requires rows.Keys <= parents.Keys && candidate.Keys <= candidates.Keys
    requires kept == DeleteMissing(parents, candidates, All())
    requires Unfetched(rows, candidate)
    ensures var result := ReconcileExtension(same, CascadeExtension(rows, kept), candidates, candidate, now);
            && result == Merged(ByColumns(same), rows, candidate, now)
            && (result == Replaced(rows, candidate, All(), now) <==> Telling(ByColumns(same), rows, candidate))
  {
    hide Merge, Replaced, Telling, Differs, Reflexive;
    var how, left := ByColumns(same), CascadeExtension(rows, kept);
    var result := ReconcileExtension(same, left, candidates, candidate, now);
    forall k
      ensures k in result <==> k in candidate
      ensures k in candidate ==> result[k] == MergedRow(how, rows, candidate, now, k)
    {
      MergeAt(how, false, left, candidate, k => k in candidates, now, k);
    }
    MergedIsReplacement(how, rows, candidate, now);
  }

  /** So are the children, although only those of candidate parents are compared. */
  lemma ChildrenAreReplaced(child: ChildSpec, rows: map<ChildKey, Row>, parents: map<Id, Row>, kept: map<Id, Row>,
                            candidates: map<Id, Candidate>, candidate: map<ChildKey, Candidate>, now: Time)
    requires Reflexive(ByColumnsAndChecksum(child.same))
    requires (forall k <- rows :: k.parent in parents) && (forall k <- candidate :: k.parent in candidates)
    requires kept == DeleteMissing(parents, candidates, All())
    requires child.fetched || Unfetched(rows, candidate)
    ensures var how, result := ByColumnsAndChecksum(child.same),
                               ReconcileChildren(child, CascadeChildren(rows, kept), candidates, candidate, now);
            && result == Merged(how, rows, candidate, now)
            && (result == Replaced(rows, candidate, All(), now) <==> Telling(how, rows, candidate))
  {
    hide Merge, Replaced, Telling, Differs, Reflexive;
    var how, left := ByColumnsAndChecksum(child.same), CascadeChildren(rows, kept);
    var result := ReconcileChildren(child, left, candidates, candidate, now);
    forall k
      ensures k in result <==> k in candidate
      ensures k in candidate ==> result[k] == MergedRow(how, rows, candidate, now, k)
    {
      MergeAt(how, child.fetched, left, candidate, (c: ChildKey) => c.parent in candidates, now, k);
    }
    MergedIsReplacement(how, rows, candidate, now);
  }

  lemma ParentsAreReplaced(same: Same, rows: map<Id, Row>, candidate: map<Id, Candidate>, now: Time)
    requires Reflexive(ByColumnsAndChecksum(same))
    ensures var how, result := ByColumnsAndChecksum(same),
                               Merge(ByColumnsAndChecksum(same), true, rows, candidate, All(), now);
            && result == Merged(how, rows, candidate, now)
            && (result == Replaced(rows, candidate, All(), now) <==> Telling(how, rows, candidate))
  {
    hide Merge, Replaced, Telling, Differs, Reflexive;
    var how, result := ByColumnsAndChecksum(same), Merge(ByColumnsAndChecksum(same), true, rows, candidate, All(), now);
    forall k
      ensures k in result <==> k in candidate
      ensures k in candidate ==> result[k] == MergedRow(how, rows, candidate, now, k)
    {
      MergeAt(how, true, rows, candidate, All(), now, k);
    }
    MergedIsReplacement(how, rows, candidate, now);
  }

  /**
   A customer's name changes in case alone, which the collation does not see. The payload and its checksum differ, so the
   parent is updated; the extension has no checksum, and keeps the old name.
  */
  lemma ChangeOfCaseIsMissed(same: Same, parents: map<Id, Row>, extension: map<Id, Row>, candidates: map<Id, Candidate>,
                             candidate: map<Id, Candidate>, k: Id, now: Time)
    requires Reflexive(ByColumns(same)) && same(["Budi"], ["BUDI"])
    requires extension.Keys <= parents.Keys && candidate.Keys <= candidates.Keys && Unfetched(extension, candidate)
    requires k in extension && extension[k].content == Content(["Budi"], "", "")
    requires k in candidate && candidate[k].content == Content(["BUDI"], "", "")
    requires parents[k].content == Content(["1"], "c0", "Budi") && candidates[k].content == Content(["1"], "c1", "BUDI")
    ensures var kept := DeleteMissing(parents, candidates, All());
            var parents' := Upsert(ByColumnsAndChecksum(same), true, kept, candidates, now);
            var extension' := ReconcileExtension(same, CascadeExtension(extension, kept), candidates, candidate, now);
            && k in parents' && parents'[k] == Row(candidates[k].content, candidates[k].fetched, now)
            && k in extension' && extension'[k] == extension[k]
            && extension' != Replaced(extension, candidate, All(), now)
  {
    hide Upsert, ReconcileExtension, Replaced, CascadeExtension, DeleteMissing;
    ParentsAreReplaced(same, parents, candidates, now);
    ExtensionIsReplaced(same, extension, parents, DeleteMissing(parents, candidates, All()), candidates, candidate, now);
    assert extension[k].content.fields[0][1] != candidate[k].content.fields[0][1];
  }

  // ---------------------------------------------------------------------------------------------------------
  // The publishing transactions
  // ---------------------------------------------------------------------------------------------------------

  /** Tables as specified, whose foreign keys hold; extensions and some children have no fetch time. */
  ghost predicate Shaped(spec: Spec, t: Tables, c: Candidates) {
    && |t.extensions| == |c.extensions| == |spec.extensions|
    && |t.children| == |c.children| == |spec.children|
    && Owned(t)
    && CandidatesOwned(c)
    && Reflexive(ByColumnsAndChecksum(spec.parents))
    && (forall i | 0 <= i < |t.extensions| ::
          Reflexive(ByColumns(spec.extensions[i])) && Unfetched(t.extensions[i], c.extensions[i]))
    && (forall i | 0 <= i < |t.children| ::
          && Reflexive(ByColumnsAndChecksum(spec.children[i].same))
          && (spec.children[i].fetched || Unfetched(t.children[i], c.children[i])))
  }

  /** The candidate's keys, with what a merge leaves in every row. */
  ghost predicate IsMerged(spec: Spec, before: Tables, c: Candidates, now: Time, after: Tables) {
    && |after.extensions| == |before.extensions| == |c.extensions| == |spec.extensions|
    && |after.children| == |before.children| == |c.children| == |spec.children|
    && after.parents == Merged(ByColumnsAndChecksum(spec.parents), before.parents, c.parents, now)
    && (forall i | 0 <= i < |after.extensions| ::
          after.extensions[i] == Merged(ByColumns(spec.extensions[i]), before.extensions[i], c.extensions[i], now))
    && (forall i | 0 <= i < |after.children| :: after.children[i] ==
          Merged(ByColumnsAndChecksum(spec.children[i].same), before.children[i], c.children[i], now))
  }

  lemma OwnedAt(t: Tables, c: Candidates, i: nat, j: nat)
    requires Owned(t) && CandidatesOwned(c)
    ensures i < |t.extensions| ==> t.extensions[i].Keys <= t.parents.Keys
    ensures i < |c.extensions| ==> c.extensions[i].Keys <= c.parents.Keys
    ensures j < |t.children| ==> forall k <- t.children[j] :: k.parent in t.parents
    ensures j < |c.children| ==> forall k <- c.children[j] :: k.parent in c.parents
  {
    assert i < |t.extensions| ==> t.extensions[i] in t.extensions;
    assert i < |c.extensions| ==> c.extensions[i] in c.extensions;
    assert j < |t.children| ==> t.children[j] in t.children;
    assert j < |c.children| ==> c.children[j] in c.children;
  }

  class DetailTables {
    var parents: map<Id, Row>
    var extensions: seq<map<Id, Row>>
    var children: seq<map<ChildKey, Row>>

    ghost function Contents(): Tables
      reads this
    {
      Tables(parents, extensions, children)
    }

    /**
     After it the tables hold the candidate's keys, and each is the candidate's, rows and all, exactly when rows that
     compare as unchanged are unchanged.
    */
    method ReconcileDetail(spec: Spec, candidate: Candidates, now: Time)
      requires Shaped(spec, Contents(), candidate)
      modifies this
      ensures IsMerged(spec, old(Contents()), candidate, now, Contents())
      ensures parents == Replaced(old(parents), candidate.parents, All(), now)
         <==> Telling(ByColumnsAndChecksum(spec.parents), old(parents), candidate.parents)
      ensures forall i | 0 <= i < |extensions| ::
                (extensions[i] == Replaced(old(extensions)[i], candidate.extensions[i], All(), now)
                 <==> Telling(ByColumns(spec.extensions[i]), old(extensions)[i], candidate.extensions[i]))
      ensures forall i | 0 <= i < |children| ::
                (children[i] == Replaced(old(children)[i], candidate.children[i], All(), now)
                 <==> Telling(ByColumnsAndChecksum(spec.children[i].same), old(children)[i], candidate.children[i]))
      ensures Owned(Contents())
    {
      hide Upsert, Telling, Replaced, Merged, ReconcileExtension, ReconcileChildren, CascadeExtension, CascadeChildren,
           Owned, CandidatesOwned, Unfetched, Reflexive;
      ghost var before := Contents();
      ParentsAreReplaced(spec.parents, parents, candidate.parents, now);
      DeleteParents(candidate.parents);
      var kept := parents;
      UpsertParents(spec.parents, candidate.parents, now);
      for i := 0 to |extensions|
        invariant parents == Merged(ByColumnsAndChecksum(spec.parents), before.parents, candidate.parents, now)
        invariant |extensions| == |before.extensions| && |children| == |before.children|
        invariant forall j | 0 <= j < |children| :: children[j] == CascadeChildren(before.children[j], kept)
        invariant forall j | i <= j < |extensions| :: extensions[j] == CascadeExtension(before.extensions[j], kept)
        invariant forall j | 0 <= j < i ::
                    extensions[j]
                    == Merged(ByColumns(spec.extensions[j]), before.extensions[j], candidate.extensions[j], now)
      {
        OwnedAt(before, candidate, i, 0);
        ExtensionIsReplaced(spec.extensions[i], before.extensions[i], before.parents, kept, candidate.parents,
                            candidate.extensions[i], now);
        extensions := extensions[i :=
          ReconcileExtension(spec.extensions[i], extensions[i], candidate.parents, candidate.extensions[i], now)];
      }
      for i := 0 to |children|
        invariant parents == Merged(ByColumnsAndChecksum(spec.parents), before.parents, candidate.parents, now)
        invariant |extensions| == |before.extensions| && |children| == |before.children|
        invariant forall j | i <= j < |children| :: children[j] == CascadeChildren(before.children[j], kept)
        invariant forall j | 0 <= j < |extensions| ::
                    extensions[j]
                    == Merged(ByColumns(spec.extensions[j]), before.extensions[j], candidate.extensions[j], now)
        invariant forall j | 0 <= j < i ::
                    children[j] == Merged(ByColumnsAndChecksum(spec.children[j].same), before.children[j],
                                          candidate.children[j], now)
      {
        OwnedAt(before, candidate, 0, i);
        ChildrenAreReplaced(spec.children[i], before.children[i], before.parents, kept, candidate.parents,
                            candidate.children[i], now);
        children := children[i :=
          ReconcileChildren(spec.children[i], children[i], candidate.parents, candidate.children[i], now)];
      }
      MergedTables(spec, before, candidate, now, Contents());
    }

    /** The foreign keys delete the rows of deleted parents with them. */
    method DeleteParents(candidate: map<Id, Candidate>)
      modifies this
      ensures parents == DeleteMissing(old(parents), candidate, All())
      ensures |extensions| == |old(extensions)| && |children| == |old(children)|
      ensures forall j | 0 <= j < |extensions| :: extensions[j] == CascadeExtension(old(extensions)[j], parents)
      ensures forall j | 0 <= j < |children| :: children[j] == CascadeChildren(old(children)[j], parents)
    {
      parents := DeleteMissing(parents, candidate, All());
      var p, e, c := parents, extensions, children;
      extensions := seq(|e|, j requires 0 <= j < |e| => CascadeExtension(e[j], p));
      children := seq(|c|, j requires 0 <= j < |c| => CascadeChildren(c[j], p));
    }

    method UpsertParents(same: Same, candidate: map<Id, Candidate>, now: Time)
      modifies this`parents
      ensures parents == Upsert(ByColumnsAndChecksum(same), true, old(parents), candidate, now)
    {
      var how := ByColumnsAndChecksum(same);
      parents := RefreshUnchanged(how, parents, candidate);
      parents := UpdateChanged(how, parents, candidate, now);
      parents := InsertNew(parents, candidate, now);
    }
  }

  /** Merged tables keep the foreign keys, and are replaced exactly where the comparison tells the rows apart. */
  lemma MergedTables(spec: Spec, before: Tables, candidate: Candidates, now: Time, after: Tables)
    requires Shaped(spec, before, candidate) && IsMerged(spec, before, candidate, now, after)
    ensures after.parents == Replaced(before.parents, candidate.parents, All(), now)
       <==> Telling(ByColumnsAndChecksum(spec.parents), before.parents, candidate.parents)
    ensures forall i | 0 <= i < |after.extensions| ::
              (after.extensions[i] == Replaced(before.extensions[i], candidate.extensions[i], All(), now)
               <==> Telling(ByColumns(spec.extensions[i]), before.extensions[i], candidate.extensions[i]))
    ensures forall i | 0 <= i < |after.children| ::
              (after.children[i] == Replaced(before.children[i], candidate.children[i], All(), now)
               <==> Telling(ByColumnsAndChecksum(spec.children[i].same), before.children[i], candidate.children[i]))
    ensures Owned(after)
  {
    hide Replaced, Telling, Merged, Reflexive, Unfetched, Owned, CandidatesOwned;
    MergedIsReplacement(ByColumnsAndChecksum(spec.parents), before.parents, candidate.parents, now);
    forall i | 0 <= i < |after.extensions|
      ensures after.extensions[i] == Replaced(before.extensions[i], candidate.extensions[i], All(), now)
         <==> Telling(ByColumns(spec.extensions[i]), before.extensions[i], candidate.extensions[i])
    {
      MergedIsReplacement(ByColumns(spec.extensions[i]), before.extensions[i], candidate.extensions[i], now);
    }
    forall i | 0 <= i < |after.children|
      ensures after.children[i] == Replaced(before.children[i], candidate.children[i], All(), now)
         <==> Telling(ByColumnsAndChecksum(spec.children[i].same), before.children[i], candidate.children[i])
    {
      MergedIsReplacement(
        ByColumnsAndChecksum(spec.children[i].same), before.children[i], candidate.children[i], now);
    }
    MergedOwned(spec, before, candidate, now, after);
  }

  lemma MergedOwned(spec: Spec, before: Tables, candidate: Candidates, now: Time, after: Tables)
    requires CandidatesOwned(candidate) && IsMerged(spec, before, candidate, now, after)
    ensures Owned(after)
  {
    forall e, k | e in after.extensions && k in e ensures k in after.parents {
      var i :| 0 <= i < |after.extensions| && after.extensions[i] == e;
      assert candidate.extensions[i] in candidate.extensions && k in candidate.extensions[i];
    }
    forall c, k | c in after.children && k in c ensures k.parent in after.parents {
      var i :| 0 <= i < |after.children| && after.children[i] == c;
      assert candidate.children[i] in candidate.children && k in candidate.children[i];
    }
  }

  // ---------------------------------------------------------------------------------------------------------
  // Reference masters: one domain of a shared table
  // ---------------------------------------------------------------------------------------------------------

  datatype CategoryKey = CategoryKey(domain: string, category: string)
  datatype ItemKey = ItemKey(category: CategoryKey, ordinal: nat)

  function CascadeItems(items: map<ItemKey, Row>, categories: map<CategoryKey, Row>): map<ItemKey, Row> {
    map k | k in items && k.category in categories :: items[k]
  }

  /** Rows of the domain become the candidate's; rows of every other domain stay as they are. */
  method ReconcileReference(categories: map<CategoryKey, Row>, items: map<ItemKey, Row>, domain: string,
                            candidateCategories: map<CategoryKey, Candidate>, candidateItems: map<ItemKey, Candidate>,
                            now: Time)
    returns (categories': map<CategoryKey, Row>, items': map<ItemKey, Row>)
    requires forall k <- items :: k.category in categories
    requires forall k <- candidateItems :: k.category in candidateCategories
    requires forall k <- candidateCategories :: k.domain == domain
    requires Telling(ByChecksum, categories, candidateCategories) && Telling(ByChecksum, items, candidateItems)
    ensures categories' == Replaced(categories, candidateCategories, (k: CategoryKey) => k.domain == domain, now)
    ensures items' == Replaced(items, candidateItems, (k: ItemKey) => k.category.domain == domain, now)
    ensures forall k | k in categories && k.domain != domain :: k in categories' && categories'[k] == categories[k]
    ensures forall k | k in items && k.category.domain != domain :: k in items' && items'[k] == items[k]
  {
    var inDomain := (k: CategoryKey) => k.domain == domain;
    var itemInDomain := (k: ItemKey) => k.category.domain == domain;
    MergeIsReplacement(ByChecksum, true, categories, candidateCategories, inDomain, now);
    categories' := DeleteMissing(categories, candidateCategories, inDomain);
    var left := CascadeItems(items, categories');
    MergeIsReplacement(ByChecksum, true, left, candidateItems, itemInDomain, now);
    SameReplacement(left, items, candidateItems, itemInDomain, itemInDomain, now);
    items' := left;
    categories' := RefreshUnchanged(ByChecksum, categories', candidateCategories);
    categories' := UpdateChanged(ByChecksum, categories', candidateCategories, now);
    categories' := InsertNew(categories', candidateCategories, now);
    items' := DeleteMissing(items', candidateItems, itemInDomain);
    items' := RefreshUnchanged(ByChecksum, items', candidateItems);
    items' := UpdateChanged(ByChecksum, items', candidateItems, now);
    items' := InsertNew(items', candidateItems, now);
  }
}
