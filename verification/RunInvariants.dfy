/**
 What every step of the ingestion runs keeps, and the quiet changes of rows that keep it without further argument:
 those that neither start a run nor end one with a success.
*/
module RunInvariants {
  import opened Options
  import opened Runs

  // ---------------------------------------------------------------------------------------------------------
  // Parents and children
  // ---------------------------------------------------------------------------------------------------------

  ghost predicate ChildOk(catalog: Catalog, runs: RunTable, number: nat, k: nat) {
    && (Child(number, k) in runs <==> Parent(number) in runs && 1 <= k <= |catalog.jobs|)
    && (Child(number, k) in runs ==> runs[Child(number, k)].job == catalog.jobs[k - 1])
  }

  /** An active child has only terminal children before it: so at most one is active. */
  ghost predicate OrderOk(runs: RunTable, number: nat, j: nat, k: nat) {
    j < k && Child(number, j) in runs && Child(number, k) in runs && IsActive(runs[Child(number, k)].status) ==>
      IsTerminal(runs[Child(number, j)].status)
  }

  ghost predicate AllTerminal(runs: RunTable, number: nat) {
    forall k: nat {:trigger Child(number, k)} | Child(number, k) in runs :: IsTerminal(runs[Child(number, k)].status)
  }

  ghost predicate IsParentStatus(status: Status) {
    status == Running || status == Completed || status == CompletedWithSkips || status == Failed || status == Cancelled
    || status == Abandoned
  }

  /** A finished parent has only terminal children, and its status sums them up. */
  ghost predicate ParentOk(runs: RunTable, number: nat)
    requires Parent(number) in runs
  {
    var r := runs[Parent(number)];
    && IsParentStatus(r.status)
    && (r.status != Running && r.status != Abandoned ==> AllTerminal(runs, number))
    && (r.status == Completed || r.status == CompletedWithSkips || r.status == Failed ==>
          r.status == Aggregate(runs, number))
    && (r.status == Running && r.cancel ==>
          forall k: nat {:trigger Child(number, k)} | Child(number, k) in runs ::
            runs[Child(number, k)].status != Planned && runs[Child(number, k)].status != Queued)
  }

  ghost predicate ParentsOk(catalog: Catalog, runs: RunTable) {
    && (forall n: nat, k: nat {:trigger ChildOk(catalog, runs, n, k)} :: ChildOk(catalog, runs, n, k))
    && (forall n: nat, j: nat, k: nat {:trigger OrderOk(runs, n, j, k)} :: OrderOk(runs, n, j, k))
    && (forall n: nat {:trigger ParentOk(runs, n)} | Parent(n) in runs :: ParentOk(runs, n))
  }

  /** The unique index on the job of an active run. */
  ghost predicate SameJob(runs: RunTable, i: RunId, j: RunId)
    requires i in runs && j in runs
  {
    var active := IsExecutable(i) && IsExecutable(j) && IsActive(runs[i].status) && IsActive(runs[j].status);
    active && runs[i].job == runs[j].job ==> i == j
  }

  ghost predicate JobsUnique(runs: RunTable) {
    forall i, j {:trigger SameJob(runs, i, j)} | i in runs && j in runs :: SameJob(runs, i, j)
  }

  // ---------------------------------------------------------------------------------------------------------
  // Steps that queue nothing and settle no parent
  // ---------------------------------------------------------------------------------------------------------

  ghost predicate QuietRow(id: RunId, r: Run, r': Run) {
    && r'.job == r.job
    && (IsTerminal(r.status) ==> r'.status == r.status)
    && (IsActive(r'.status) ==> IsActive(r.status))
    && (r'.status == Planned || r'.status == Queued ==> r.status == Planned || r.status == Queued)
    && (id.Parent? ==> (r'.status == r.status || (r.status == Running && r'.status == Abandoned)) && r'.cancel == r.cancel)
  }

  ghost predicate Quiet(runs: RunTable, runs': RunTable) {
    && runs'.Keys == runs.Keys
    && (forall id {:trigger QuietRow(id, runs[id], runs'[id])} | id in runs :: QuietRow(id, runs[id], runs'[id]))
  }

  lemma QuietAggregate(runs: RunTable, runs': RunTable, number: nat)
    requires Quiet(runs, runs') && AllTerminal(runs, number)
    ensures AllTerminal(runs', number) && Aggregate(runs', number) == Aggregate(runs, number)
  {
    forall k: nat | Child(number, k) in runs'
      ensures runs'[Child(number, k)].status == runs[Child(number, k)].status
      ensures IsTerminal(runs'[Child(number, k)].status)
    {
      assert QuietRow(Child(number, k), runs[Child(number, k)], runs'[Child(number, k)]);
    }
    SameSomeChild(runs, runs', number, {Failed, Cancelled, Abandoned});
    SameSomeChild(runs, runs', number, {Skipped});
  }

  lemma SameSomeChild(runs: RunTable, runs': RunTable, number: nat, statuses: set<Status>)
    requires runs'.Keys == runs.Keys
    requires forall k: nat | Child(number, k) in runs :: runs'[Child(number, k)].status == runs[Child(number, k)].status
    ensures SomeChild(runs', number, statuses) == SomeChild(runs, number, statuses)
  {
    forall id | id in runs && id.Child? && id.number == number ensures runs'[id].status == runs[id].status {
      assert id == Child(number, id.position);
    }
  }

  lemma QuietParent(runs: RunTable, runs': RunTable, n: nat)
    requires Quiet(runs, runs') && Parent(n) in runs && ParentOk(runs, n)
    ensures ParentOk(runs', n)
  {
    hide Aggregate;
    assert QuietRow(Parent(n), runs[Parent(n)], runs'[Parent(n)]);
    if AllTerminal(runs, n) { QuietAggregate(runs, runs', n); }
    forall k: nat | Child(n, k) in runs'
      ensures QuietRow(Child(n, k), runs[Child(n, k)], runs'[Child(n, k)])
    {
    }
  }

  lemma QuietKeepsParents(catalog: Catalog, runs: RunTable, runs': RunTable)
    requires ParentsOk(catalog, runs) && Quiet(runs, runs')
    ensures ParentsOk(catalog, runs')
  {
    hide ParentOk;
    forall n: nat, k: nat ensures ChildOk(catalog, runs', n, k) {
      assert ChildOk(catalog, runs, n, k);
      if Child(n, k) in runs { assert QuietRow(Child(n, k), runs[Child(n, k)], runs'[Child(n, k)]); }
    }
    forall n: nat, j: nat, k: nat ensures OrderOk(runs', n, j, k) {
      assert OrderOk(runs, n, j, k);
      if Child(n, k) in runs { assert QuietRow(Child(n, k), runs[Child(n, k)], runs'[Child(n, k)]); }
      if Child(n, j) in runs { assert QuietRow(Child(n, j), runs[Child(n, j)], runs'[Child(n, j)]); }
    }
    forall n: nat | Parent(n) in runs' ensures ParentOk(runs', n) {
      assert ParentOk(runs, n);
      QuietParent(runs, runs', n);
    }
  }

  lemma QuietKeepsJobs(runs: RunTable, runs': RunTable)
    requires JobsUnique(runs) && Quiet(runs, runs')
    ensures JobsUnique(runs')
  {
    forall i, j | i in runs' && j in runs' ensures SameJob(runs', i, j) {
      assert SameJob(runs, i, j) && QuietRow(i, runs[i], runs'[i]) && QuietRow(j, runs[j], runs'[j]);
    }
  }

  /** One row updated in a quiet way. */
  lemma QuietUpdate(runs: RunTable, id: RunId, r: Run)
    requires id in runs && QuietRow(id, runs[id], r)
    ensures Quiet(runs, runs[id := r])
  {
  }

  // ---------------------------------------------------------------------------------------------------------
  // Executors and publications
  // ---------------------------------------------------------------------------------------------------------

  /** An executable run belongs, from its claim on and forever, to the one executor that claimed it. */
  ghost predicate RunOk(s: System, id: RunId)
    requires id in s.runs
  {
    IsExecutable(id) ==>
      && (s.runs[id].status == Planned || s.runs[id].status == Queued ==> s.runs[id].owner.None?)
      && (s.runs[id].status == Running || s.runs[id].status == Succeeded ==> s.runs[id].owner.Some?)
      && s.runs[id].status != Completed && s.runs[id].status != CompletedWithSkips
      && (s.runs[id].owner.Some? ==>
            s.runs[id].owner.value in s.executors && s.executors[s.runs[id].owner.value].run == id)
  }

  ghost predicate ExecutorOk(catalog: Catalog, s: System, owner: Owner)
    requires owner in s.executors
  {
    var x := s.executors[owner];
    && owner < s.nextOwner
    && x.run in s.runs
    && IsExecutable(x.run)
    && s.runs[x.run].owner == Some(owner)
    && (s.runs[x.run].job in catalog.publishing && (x.told || x.phase == Returned(Succeeded) || x.phase == FallingBack) ==>
          s.runs[x.run].status == Succeeded)
  }

  /** The publications of one run. */
  function Of(published: seq<Publication>, id: RunId): seq<Publication> {
    if published == [] then []
    else
      var last := published[|published| - 1];
      Of(published[..|published| - 1], id) + (if last.run == id then [last] else [])
  }

  /** The publications a run's row accounts for: its owner's, once, if the run succeeded. */
  function Expected(catalog: Catalog, id: RunId, r: Run): seq<Publication> {
    if IsExecutable(id) && r.job in catalog.publishing && r.status == Succeeded && r.owner.Some? then
      [Publication(id, r.owner.value)]
    else []
  }

  ghost predicate PublishedOk(catalog: Catalog, s: System, id: RunId) {
    Of(s.published, id) == if id in s.runs then Expected(catalog, id, s.runs[id]) else []
  }

  ghost predicate NumberOk(runs: RunTable, nextRun: nat, id: RunId) {
    id.number < nextRun
  }

  ghost predicate Inv(catalog: Catalog, s: System) {
    && ParentsOk(catalog, s.runs)
    && JobsUnique(s.runs)
    && (forall id {:trigger RunOk(s, id)} | id in s.runs :: RunOk(s, id))
    && (forall o {:trigger ExecutorOk(catalog, s, o)} | o in s.executors :: ExecutorOk(catalog, s, o))
    && (forall id {:trigger PublishedOk(catalog, s, id)} :: PublishedOk(catalog, s, id))
    && (forall id {:trigger NumberOk(s.runs, s.nextRun, id)} | id in s.runs :: NumberOk(s.runs, s.nextRun, id))
  }

  lemma InitialInv(catalog: Catalog)
    ensures Inv(catalog, Initial)
  {
  }

  /** A quiet update of rows that neither claims nor completes executable runs. */
  ghost predicate SameClaims(catalog: Catalog, runs: RunTable, runs': RunTable, id: RunId)
    requires id in runs && id in runs'
  {
    IsExecutable(id) ==>
      && runs'[id].owner == runs[id].owner
      && (runs[id].status == Succeeded <==> runs'[id].status == Succeeded)
      && (runs'[id].status == Running ==> runs[id].status == Running)
      && (runs'[id].status != Completed && runs'[id].status != CompletedWithSkips)
  }

  lemma QuietKeeps(catalog: Catalog, s: System, runs': RunTable)
    requires Inv(catalog, s) && Quiet(s.runs, runs')
    requires forall id {:trigger SameClaims(catalog, s.runs, runs', id)} | id in s.runs ::
               SameClaims(catalog, s.runs, runs', id)
    ensures Inv(catalog, s.(runs := runs'))
  {
    hide ParentsOk, JobsUnique;
    QuietKeepsParents(catalog, s.runs, runs');
    QuietKeepsJobs(s.runs, runs');
    SameClaimsKeep(catalog, s, runs');
  }

  lemma SameClaimsKeep(catalog: Catalog, s: System, runs': RunTable)
    requires Quiet(s.runs, runs')
    requires forall id {:trigger RunOk(s, id)} | id in s.runs :: RunOk(s, id)
    requires forall o {:trigger ExecutorOk(catalog, s, o)} | o in s.executors :: ExecutorOk(catalog, s, o)
    requires forall id {:trigger PublishedOk(catalog, s, id)} :: PublishedOk(catalog, s, id)
    requires forall id {:trigger NumberOk(s.runs, s.nextRun, id)} | id in s.runs :: NumberOk(s.runs, s.nextRun, id)
    requires forall id {:trigger SameClaims(catalog, s.runs, runs', id)} | id in s.runs ::
               SameClaims(catalog, s.runs, runs', id)
    ensures var s' := s.(runs := runs');
            && (forall id {:trigger RunOk(s', id)} | id in s'.runs :: RunOk(s', id))
            && (forall o {:trigger ExecutorOk(catalog, s', o)} | o in s'.executors :: ExecutorOk(catalog, s', o))
            && (forall id {:trigger PublishedOk(catalog, s', id)} :: PublishedOk(catalog, s', id))
            && (forall id {:trigger NumberOk(s'.runs, s'.nextRun, id)} | id in s'.runs :: NumberOk(s'.runs, s'.nextRun, id))
  {
    var s' := s.(runs := runs');
    forall id | id in s'.runs ensures RunOk(s', id) && NumberOk(s'.runs, s'.nextRun, id) {
      assert RunOk(s, id) && SameClaims(catalog, s.runs, runs', id) && QuietRow(id, s.runs[id], runs'[id]);
      assert NumberOk(s.runs, s.nextRun, id);
    }
    forall o | o in s'.executors ensures ExecutorOk(catalog, s', o) {
      assert ExecutorOk(catalog, s, o);
      var id := s.executors[o].run;
      assert SameClaims(catalog, s.runs, runs', id) && QuietRow(id, s.runs[id], runs'[id]);
    }
    forall id ensures PublishedOk(catalog, s', id) {
      assert PublishedOk(catalog, s, id);
      if id in s.runs { assert SameClaims(catalog, s.runs, runs', id) && QuietRow(id, s.runs[id], runs'[id]); }
    }
  }
}
