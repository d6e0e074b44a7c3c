/**
 * The per-provider batch store: `saveBatchInfo`, `getSavedBatchJobs` and the
 * merging half of `updateBatchesInStorage`, which both provider clients
 * implement identically apart from their defaults and their snapshot
 * normalisation. The storage entry is passed in and the new entry returned;
 * the clock is the parameter `now` (epoch milliseconds).
 */
module BatchStore {
  import opened Wrappers
  import opened Interfaces
  import Sorting

  /** One provider's storage entry: absent, holding text that does not parse, or holding batches. */
  datatype Slot = Missing | Unparseable | Stored(jobs: seq<SavedBatchJob>)

  /** `getSavedBatchJobs`: the stored batches; an absent or unparseable entry reads as none. */
  function Load(slot: Slot): (r: seq<SavedBatchJob>)
    ensures slot.Stored? ==> r == slot.jobs
    ensures !slot.Stored? ==> r == []
  {
    match slot
    case Stored(jobs) => jobs
    case _ => []
  }

  // ---------------------------------------------------------------------------
  // Ids and ordering
  // ---------------------------------------------------------------------------

  /** The ids present in a sequence of batches. */
  ghost function Ids(jobs: seq<SavedBatchJob>): set<string> {
    set j | j in jobs :: IdOf(j)
  }

  /** No two stored batches share an id. */
  predicate UniqueIds(jobs: seq<SavedBatchJob>) {
    Sorting.DistinctKeys(jobs, IdOf)
  }

  /** The comparator `new Date(b.date) - new Date(a.date)`: `a` may stay before `b`. */
  predicate NewestFirst(a: SavedBatchJob, b: SavedBatchJob) {
    a.date >= b.date
  }

  lemma IdsCons(jobs: seq<SavedBatchJob>)
    requires |jobs| > 0
    ensures Ids(jobs) == {IdOf(jobs[0])} + Ids(jobs[1..])
  {
    assert jobs == [jobs[0]] + jobs[1..];
    forall k | k in Ids(jobs) ensures k in {IdOf(jobs[0])} + Ids(jobs[1..]) {
      var j :| j in jobs && IdOf(j) == k;
      if j != jobs[0] {
        assert j in jobs[1..];
      }
    }
  }

  lemma IdsOfPermutation(a: seq<SavedBatchJob>, b: seq<SavedBatchJob>)
    requires multiset(a) == multiset(b)
    ensures Ids(a) == Ids(b)
  {
    forall j ensures j in a <==> j in b {
      assert j in a <==> j in multiset(a);
      assert j in b <==> j in multiset(b);
    }
  }

  /** `batchJobs.sort(...)` by date, newest first. */
  function SortByDate(jobs: seq<SavedBatchJob>): (r: seq<SavedBatchJob>)
    ensures Sorting.SortedBy(r, NewestFirst)
    ensures multiset(r) == multiset(jobs)
    ensures forall j :: j in r <==> j in jobs
    ensures Ids(r) == Ids(jobs)
    ensures UniqueIds(jobs) ==> UniqueIds(r)
  {
    var r := Sorting.Sort(jobs, NewestFirst);
    assert forall j :: j in r <==> j in multiset(jobs);
    Sorting.SortSorted(jobs, NewestFirst);
    IdsOfPermutation(r, jobs);
    assert UniqueIds(jobs) ==> UniqueIds(r) by {
      if UniqueIds(jobs) { Sorting.SortDistinct(jobs, NewestFirst, IdOf); }
    }
    r
  }

  /** `findIndex(batch => batch.id === id)`: the first position holding `id`. */
  function FindIndex(jobs: seq<SavedBatchJob>, id: string): (r: Option<nat>)
    ensures r.Some? ==> r.value < |jobs| && IdOf(jobs[r.value]) == id
    ensures r.Some? ==> forall k :: 0 <= k < r.value ==> IdOf(jobs[k]) != id
    ensures r.None? <==> id !in Ids(jobs)
  {
    if |jobs| == 0 then None
    else
      IdsCons(jobs);
      if IdOf(jobs[0]) == id then Some(0)
      else
        match FindIndex(jobs[1..], id)
        case Some(i) => Some(i + 1)
        case None => None
  }

  // ---------------------------------------------------------------------------
  // saveBatchInfo
  // ---------------------------------------------------------------------------

  /**
   * `Partial<SavedBatchJob>`: each field is `None` when the caller leaves it out.
   * A nullable field is `Some(None)` when the caller passes `null`.
   * `lastChecked` is not a field, because the store always stamps it with the clock.
   */
  datatype Partial = Partial(
    id: Option<string>,
    status: Option<string>,
    createdAt: Option<int>,
    completedAt: Option<Option<int>>,
    eta: Option<Option<int>>,
    outputFileId: Option<Option<string>>,
    inputFileId: Option<Option<string>>,
    requestCounts: Option<Counts>,
    totalCount: Option<int>,
    resultsUrl: Option<string>,
    endpoint: Option<string>,
    completionWindow: Option<string>,
    date: Option<int>)

  /** `if (!batchData.id)` passes: the id is present and not empty. */
  predicate HasId(p: Partial) {
    Given(p.id)
  }

  /** `j` holds every field `p` supplies. */
  ghost predicate Carries(j: SavedBatchJob, p: Partial) {
    && (p.id.Some? ==> j.info.id == p.id.value)
    && (p.status.Some? ==> j.info.status == p.status.value)
    && (p.createdAt.Some? ==> j.info.createdAt == p.createdAt)
    && (p.completedAt.Some? ==> j.info.completedAt == p.completedAt.value)
    && (p.eta.Some? ==> j.info.eta == p.eta.value)
    && (p.outputFileId.Some? ==> j.info.outputFileId == p.outputFileId.value)
    && (p.inputFileId.Some? ==> j.info.inputFileId == p.inputFileId.value)
    && (p.requestCounts.Some? ==> j.info.requestCounts == p.requestCounts)
    && (p.totalCount.Some? ==> j.info.totalCount == p.totalCount)
    && (p.resultsUrl.Some? ==> j.info.resultsUrl == p.resultsUrl)
    && (p.endpoint.Some? ==> j.info.endpoint == p.endpoint.value)
    && (p.completionWindow.Some? ==> j.info.completionWindow == p.completionWindow.value)
    && (p.date.Some? ==> j.date == p.date.value)
  }

  /** `j` agrees with `prior` on every field `p` leaves out. */
  ghost predicate KeepsOmitted(j: SavedBatchJob, prior: SavedBatchJob, p: Partial) {
    && (p.id.None? ==> j.info.id == prior.info.id)
    && (p.status.None? ==> j.info.status == prior.info.status)
    && (p.createdAt.None? ==> j.info.createdAt == prior.info.createdAt)
    && (p.completedAt.None? ==> j.info.completedAt == prior.info.completedAt)
    && (p.eta.None? ==> j.info.eta == prior.info.eta)
    && (p.outputFileId.None? ==> j.info.outputFileId == prior.info.outputFileId)
    && (p.inputFileId.None? ==> j.info.inputFileId == prior.info.inputFileId)
    && (p.requestCounts.None? ==> j.info.requestCounts == prior.info.requestCounts)
    && (p.totalCount.None? ==> j.info.totalCount == prior.info.totalCount)
    && (p.resultsUrl.None? ==> j.info.resultsUrl == prior.info.resultsUrl)
    && (p.endpoint.None? ==> j.info.endpoint == prior.info.endpoint)
    && (p.completionWindow.None? ==> j.info.completionWindow == prior.info.completionWindow)
    && (p.date.None? ==> j.date == prior.date)
  }

  /** `{...prior, ...batchData}` for one field: the supplied value, else the prior one. */
  function Pick<T>(supplied: Option<T>, prior: T): (r: T)
    ensures supplied.Some? ==> r == supplied.value
    ensures supplied.None? ==> r == prior
  {
    if supplied.Some? then supplied.value else prior
  }

  /** `{...prior, ...batchData, lastChecked: now}`: a shallow merge stamped with the clock. */
  function Overlay(prior: SavedBatchJob, p: Partial, now: int): (r: SavedBatchJob)
    ensures Carries(r, p)
    ensures KeepsOmitted(r, prior, p)
    ensures r.lastChecked == now
  {
    var i := prior.info;
    var info := BatchStatus(
      Pick(p.id, i.id),
      Pick(p.status, i.status),
      p.createdAt.Or(i.createdAt),
      Pick(p.completedAt, i.completedAt),
      Pick(p.eta, i.eta),
      Pick(p.outputFileId, i.outputFileId),
      Pick(p.inputFileId, i.inputFileId),
      p.requestCounts.Or(i.requestCounts),
      p.totalCount.Or(i.totalCount),
      p.resultsUrl.Or(i.resultsUrl),
      Pick(p.endpoint, i.endpoint),
      Pick(p.completionWindow, i.completionWindow));
    SavedBatchJob(info, Pick(p.date, prior.date), now)
  }

  /** `v || null` for a nullable string field. */
  function NonEmptyOrNull(v: Option<Option<string>>): Option<string> {
    if v.Some? && v.value.Some? && v.value.value != "" then v.value else None
  }

  /** `j` holds every field `p` supplies with a truthy value. */
  ghost predicate CarriesGiven(j: SavedBatchJob, p: Partial) {
    && (p.id.Some? ==> j.info.id == p.id.value)
    && (Given(p.status) ==> j.info.status == p.status.value)
    && (p.createdAt.Some? ==> j.info.createdAt == p.createdAt)
    && (p.completedAt.Some? ==> j.info.completedAt == p.completedAt.value)
    && (p.eta.Some? ==> j.info.eta == p.eta.value)
    && (p.outputFileId.Some? && Given(p.outputFileId.value) ==> j.info.outputFileId == p.outputFileId.value)
    && (p.inputFileId.Some? && Given(p.inputFileId.value) ==> j.info.inputFileId == p.inputFileId.value)
    && (p.requestCounts.Some? ==> j.info.requestCounts == p.requestCounts)
    && (p.totalCount.Some? ==> j.info.totalCount == p.totalCount)
    && (j.info.resultsUrl == p.resultsUrl)
    && (Given(p.endpoint) ==> j.info.endpoint == p.endpoint.value)
    && (Given(p.completionWindow) ==> j.info.completionWindow == p.completionWindow.value)
    && (p.date.Some? ==> j.date == p.date.value)
  }

  /** Every field `p` leaves out or makes falsy takes the insert default. */
  ghost predicate Defaulted(j: SavedBatchJob, p: Partial, now: int, defaultEndpoint: string) {
    && (!Given(p.status) ==> j.info.status == "pending")
    && (p.createdAt.None? ==> j.info.createdAt == Some(now))
    && (p.completedAt.None? ==> j.info.completedAt.None?)
    && (p.eta.None? ==> j.info.eta.None?)
    && (p.outputFileId.None? || !Given(p.outputFileId.value) ==> j.info.outputFileId.None?)
    && (p.inputFileId.None? || !Given(p.inputFileId.value) ==> j.info.inputFileId.None?)
    && (p.requestCounts.None? ==> j.info.requestCounts == Some(map[]))
    && (p.totalCount.None? ==> j.info.totalCount == Some(0))
    && (!Given(p.endpoint) ==> j.info.endpoint == defaultEndpoint)
    && (!Given(p.completionWindow) ==> j.info.completionWindow == "24h")
    && (p.date.None? ==> j.date == now)
  }

  /** The record `saveBatchInfo` pushes for an id it has not seen. */
  function NewJob(p: Partial, now: int, defaultEndpoint: string): (r: SavedBatchJob)
    requires p.id.Some?
    ensures CarriesGiven(r, p)
    ensures Defaulted(r, p, now, defaultEndpoint)
    ensures r.lastChecked == now
  {
    SavedBatchJob(
      BatchStatus(
        p.id.value,
        StringOr(p.status, "pending"),
        Some(p.createdAt.GetOr(now)),
        p.completedAt.GetOr(None),
        p.eta.GetOr(None),
        NonEmptyOrNull(p.outputFileId),
        NonEmptyOrNull(p.inputFileId),
        Some(p.requestCounts.GetOr(map[])),
        Some(p.totalCount.GetOr(0)),
        p.resultsUrl,
        StringOr(p.endpoint, defaultEndpoint),
        StringOr(p.completionWindow, "24h")),
      p.date.GetOr(now),
      now)
  }

  lemma UpdateKeepsUniqueIds(jobs: seq<SavedBatchJob>, i: nat, u: SavedBatchJob)
    requires i < |jobs| && IdOf(u) == IdOf(jobs[i])
    requires UniqueIds(jobs)
    ensures UniqueIds(jobs[i := u])
  {
  }

  lemma AppendKeepsUniqueIds(jobs: seq<SavedBatchJob>, u: SavedBatchJob)
    requires IdOf(u) !in Ids(jobs)
    requires UniqueIds(jobs)
    ensures UniqueIds(jobs + [u])
  {
    forall i | 0 <= i < |jobs| ensures IdOf(jobs[i]) != IdOf(u) {
      assert jobs[i] in jobs;
    }
  }

  lemma IdsOfUpdate(jobs: seq<SavedBatchJob>, i: nat, u: SavedBatchJob)
    requires i < |jobs| && IdOf(u) == IdOf(jobs[i])
    ensures Ids(jobs[i := u]) == Ids(jobs)
  {
    var s := jobs[i := u];
    forall k | k in Ids(jobs) ensures k in Ids(s) {
      var j :| j in jobs && IdOf(j) == k;
      var m :| 0 <= m < |jobs| && jobs[m] == j;
      assert IdOf(s[m]) == k;
      assert s[m] in s;
    }
    forall k | k in Ids(s) ensures k in Ids(jobs) {
      var j :| j in s && IdOf(j) == k;
      var m :| 0 <= m < |s| && s[m] == j;
      assert IdOf(jobs[m]) == k;
      assert jobs[m] in jobs;
    }
  }

  /** The write-back after an update: the record at `i` replaced by `u`, then sorted. */
  function ReplaceSorted(jobs: seq<SavedBatchJob>, i: nat, u: SavedBatchJob): (r: seq<SavedBatchJob>)
    requires i < |jobs| && IdOf(u) == IdOf(jobs[i])
    ensures Sorting.SortedBy(r, NewestFirst)
    ensures |r| == |jobs|
    ensures multiset(r) == multiset(jobs) - multiset{jobs[i]} + multiset{u}
    ensures Ids(r) == Ids(jobs)
    ensures UniqueIds(jobs) ==> UniqueIds(r)
  {
    IdsOfUpdate(jobs, i, u);
    assert multiset(jobs[i := u]) == multiset(jobs) - multiset{jobs[i]} + multiset{u};
    assert UniqueIds(jobs) ==> UniqueIds(jobs[i := u]) by {
      if UniqueIds(jobs) { UpdateKeepsUniqueIds(jobs, i, u); }
    }
    SortByDate(jobs[i := u])
  }

  /** The write-back after an insert: `u` appended, then sorted. */
  function AppendSorted(jobs: seq<SavedBatchJob>, u: SavedBatchJob): (r: seq<SavedBatchJob>)
    requires IdOf(u) !in Ids(jobs)
    ensures Sorting.SortedBy(r, NewestFirst)
    ensures |r| == |jobs| + 1
    ensures multiset(r) == multiset(jobs) + multiset{u}
    ensures Ids(r) == Ids(jobs) + {IdOf(u)}
    ensures UniqueIds(jobs) ==> UniqueIds(r)
  {
    IdsCons([u] + jobs);
    assert ([u] + jobs)[1..] == jobs;
    assert multiset(jobs + [u]) == multiset([u] + jobs);
    IdsOfPermutation(jobs + [u], [u] + jobs);
    assert UniqueIds(jobs) ==> UniqueIds(jobs + [u]) by {
      if UniqueIds(jobs) { AppendKeepsUniqueIds(jobs, u); }
    }
    SortByDate(jobs + [u])
  }

  /**
   * `saveBatchInfo`: without an id nothing is written; otherwise the first
   * record with the id is shallow-merged, or a defaulted record is added, and
   * the whole collection is written back sorted newest first.
   */
  function SaveBatchInfo(slot: Slot, p: Partial, now: int, defaultEndpoint: string): (r: Slot)
    ensures !HasId(p) ==> r == slot
    ensures HasId(p) ==> r.Stored? && Sorting.SortedBy(r.jobs, NewestFirst)
    ensures HasId(p) ==> Ids(r.jobs) == Ids(Load(slot)) + {p.id.value}
    ensures HasId(p) && UniqueIds(Load(slot)) ==> UniqueIds(r.jobs)
    ensures HasId(p) && p.id.value in Ids(Load(slot)) ==>
      var i := FindIndex(Load(slot), p.id.value).value;
      && |r.jobs| == |Load(slot)|
      && multiset(r.jobs) == multiset(Load(slot)) - multiset{Load(slot)[i]}
                                                  + multiset{Overlay(Load(slot)[i], p, now)}
    ensures HasId(p) && p.id.value !in Ids(Load(slot)) ==>
      && |r.jobs| == |Load(slot)| + 1
      && multiset(r.jobs) == multiset(Load(slot)) + multiset{NewJob(p, now, defaultEndpoint)}
  {
    if !HasId(p) then slot
    else
      var jobs := Load(slot);
      match FindIndex(jobs, p.id.value)
      case Some(i) => Stored(ReplaceSorted(jobs, i, Overlay(jobs[i], p, now)))
      case None => Stored(AppendSorted(jobs, NewJob(p, now, defaultEndpoint)))
  }

  lemma UniqueIdsSameRecord(jobs: seq<SavedBatchJob>, a: SavedBatchJob, b: SavedBatchJob)
    requires UniqueIds(jobs)
    requires a in jobs && b in jobs && IdOf(a) == IdOf(b)
    ensures a == b
  {
    var i :| 0 <= i < |jobs| && jobs[i] == a;
    var k :| 0 <= k < |jobs| && jobs[k] == b;
  }

  /**
   * Reading back after `saveBatchInfo` on a store with distinct ids: the one
   * record with the id is the written one, stamped with the clock; an update
   * carries every supplied field, an insert every truthy supplied field and a
   * default for the rest.
   */
  lemma SaveThenLoad(slot: Slot, p: Partial, now: int, defaultEndpoint: string)
    requires HasId(p) && UniqueIds(Load(slot))
    ensures var r := Load(SaveBatchInfo(slot, p, now, defaultEndpoint));
      && UniqueIds(r)
      && p.id.value in Ids(r)
      && forall j :: j in r && IdOf(j) == p.id.value ==>
           && j.lastChecked == now
           && (p.id.value in Ids(Load(slot)) ==> Carries(j, p))
           && (p.id.value !in Ids(Load(slot)) ==> CarriesGiven(j, p) && Defaulted(j, p, now, defaultEndpoint))
  {
    var jobs := Load(slot);
    var r := Load(SaveBatchInfo(slot, p, now, defaultEndpoint));
    var u := if p.id.value in Ids(jobs) then Overlay(jobs[FindIndex(jobs, p.id.value).value], p, now)
             else NewJob(p, now, defaultEndpoint);
    assert u in multiset(r);
    forall j | j in r && IdOf(j) == p.id.value ensures j == u {
      UniqueIdsSameRecord(r, j, u);
    }
  }

  /**
   * Saving the same status for an id twice leaves exactly one record with that
   * id, holding that status and the later clock reading.
   */
  lemma SaveTwice(slot: Slot, p: Partial, now1: int, now2: int, defaultEndpoint: string)
    requires HasId(p) && Given(p.status) && UniqueIds(Load(slot))
    ensures var r := Load(SaveBatchInfo(SaveBatchInfo(slot, p, now1, defaultEndpoint), p, now2, defaultEndpoint));
      && UniqueIds(r)
      && p.id.value in Ids(r)
      && forall j :: j in r && IdOf(j) == p.id.value ==> j.info.status == p.status.value && j.lastChecked == now2
  {
    var first := SaveBatchInfo(slot, p, now1, defaultEndpoint);
    SaveThenLoad(slot, p, now1, defaultEndpoint);
    SaveThenLoad(first, p, now2, defaultEndpoint);
  }

  // ---------------------------------------------------------------------------
  // updateBatchesInStorage: merging through an id-keyed object
  // ---------------------------------------------------------------------------

  /** No later element of `xs` shares the id of `xs[i]`: it is the one an id-keyed object keeps. */
  predicate IsLastOfId(xs: seq<SavedBatchJob>, i: int)
    requires 0 <= i < |xs|
  {
    forall m :: i < m < |xs| ==> IdOf(xs[m]) != IdOf(xs[i])
  }

  lemma IdsAppend(om: seq<SavedBatchJob>, j: SavedBatchJob)
    ensures Ids(om + [j]) == Ids(om) + {IdOf(j)}
  {
    IdsCons([j] + om);
    assert ([j] + om)[1..] == om;
    assert multiset(om + [j]) == multiset([j] + om);
    IdsOfPermutation(om + [j], [j] + om);
  }

  lemma UpdateKeepsOthers(om: seq<SavedBatchJob>, i: nat, j: SavedBatchJob)
    requires i < |om| && IdOf(om[i]) == IdOf(j)
    ensures forall x :: x in om && IdOf(x) != IdOf(j) ==> x in om[i := j]
    ensures forall x :: x in om[i := j] ==> x in om || x == j
  {
    forall x | x in om && IdOf(x) != IdOf(j) ensures x in om[i := j] {
      var m :| 0 <= m < |om| && om[m] == x;
      assert om[i := j][m] == x;
    }
    forall x | x in om[i := j] ensures x in om || x == j {
      var m :| 0 <= m < |om| && om[i := j][m] == x;
      if m != i {
        assert om[m] == x;
      }
    }
  }

  /** `map[job.id] = job` on an object whose keys keep their first-insertion order. */
  function PutById(om: seq<SavedBatchJob>, j: SavedBatchJob): (r: seq<SavedBatchJob>)
    ensures j in r
    ensures Ids(r) == Ids(om) + {IdOf(j)}
    ensures UniqueIds(om) ==> UniqueIds(r)
    ensures forall x :: x in om && IdOf(x) != IdOf(j) ==> x in r
    ensures forall x :: x in r ==> x in om || x == j
    ensures FindIndex(om, IdOf(j)).Some? ==>
      (var i := FindIndex(om, IdOf(j)).value;
       |r| == |om| && r[i] == j && forall k :: 0 <= k < |om| && k != i ==> r[k] == om[k])
    ensures FindIndex(om, IdOf(j)).None? ==> r == om + [j]
  {
    match FindIndex(om, IdOf(j))
    case Some(i) =>
      IdsOfUpdate(om, i, j);
      UpdateKeepsOthers(om, i, j);
      assert om[i := j][i] == j;
      om[i := j]
    case None =>
      IdsAppend(om, j);
      assert UniqueIds(om) ==> UniqueIds(om + [j]) by {
        if UniqueIds(om) { AppendKeepsUniqueIds(om, j); }
      }
      om + [j]
  }

  /** Puts every element of `xs` into the object `om`, in order. */
  function PutAll(om: seq<SavedBatchJob>, xs: seq<SavedBatchJob>): (r: seq<SavedBatchJob>)
    ensures Ids(r) == Ids(om) + Ids(xs)
    ensures UniqueIds(om) ==> UniqueIds(r)
    ensures forall x :: x in om && IdOf(x) !in Ids(xs) ==> x in r
    ensures forall x :: x in r ==> x in om || x in xs
    decreases |xs|
  {
    if |xs| == 0 then om
    else
      IdsCons(xs);
      PutAll(PutById(om, xs[0]), xs[1..])
  }

  /** The element of `xs` an id-keyed object ends up holding for `k`: the last one with that id. */
  ghost function LastWith(xs: seq<SavedBatchJob>, k: string): (r: SavedBatchJob)
    requires k in Ids(xs)
    ensures IdOf(r) == k
    ensures r in xs
    decreases |xs|
  {
    IdsCons(xs);
    if k in Ids(xs[1..]) then LastWith(xs[1..], k) else xs[0]
  }

  lemma {:induction false} LastWithOfLast(xs: seq<SavedBatchJob>, i: nat)
    requires i < |xs| && IsLastOfId(xs, i)
    ensures IdOf(xs[i]) in Ids(xs)
    ensures LastWith(xs, IdOf(xs[i])) == xs[i]
    decreases |xs|
  {
    assert xs[i] in xs;
    IdsCons(xs);
    var k := IdOf(xs[i]);
    if i > 0 {
      assert xs[1..][i - 1] == xs[i];
      assert xs[i] in xs[1..];
      assert IsLastOfId(xs[1..], i - 1) by {
        forall m | i - 1 < m < |xs[1..]| ensures IdOf(xs[1..][m]) != k {
          assert xs[1..][m] == xs[m + 1];
        }
      }
      LastWithOfLast(xs[1..], i - 1);
    }
  }

  lemma {:induction false} PutAllLastWins(om: seq<SavedBatchJob>, xs: seq<SavedBatchJob>, k: string)
    requires k in Ids(xs)
    ensures LastWith(xs, k) in PutAll(om, xs)
    decreases |xs|
  {
    IdsCons(xs);
    if k in Ids(xs[1..]) {
      PutAllLastWins(PutById(om, xs[0]), xs[1..], k);
    }
  }

  lemma TailUniqueIds(xs: seq<SavedBatchJob>)
    requires |xs| > 0 && UniqueIds(xs)
    ensures UniqueIds(xs[1..])
    ensures IdOf(xs[0]) !in Ids(xs[1..])
  {
    forall a, b | 0 <= a < b < |xs[1..]| ensures IdOf(xs[1..][a]) != IdOf(xs[1..][b]) {
      assert xs[1..][a] == xs[a + 1] && xs[1..][b] == xs[b + 1];
    }
  }

  lemma {:induction false} PutAllAppends(om: seq<SavedBatchJob>, xs: seq<SavedBatchJob>)
    requires UniqueIds(xs)
    requires Ids(xs) !! Ids(om)
    ensures PutAll(om, xs) == om + xs
    decreases |xs|
  {
    if |xs| > 0 {
      IdsCons(xs);
      IdsAppend(om, xs[0]);
      TailUniqueIds(xs);
      assert IdOf(xs[0]) !in Ids(om);
      assert FindIndex(om, IdOf(xs[0])).None?;
      assert PutById(om, xs[0]) == om + [xs[0]];
      assert Ids(xs[1..]) !! Ids(om + [xs[0]]);
      PutAllAppends(om + [xs[0]], xs[1..]);
      assert PutAll(om, xs) == PutAll(om + [xs[0]], xs[1..]);
      assert om + [xs[0]] + xs[1..] == om + xs;
    }
  }

  lemma {:induction false} PutAllInPlace(om: seq<SavedBatchJob>, xs: seq<SavedBatchJob>)
    requires UniqueIds(om)
    requires Ids(xs) <= Ids(om)
    ensures |PutAll(om, xs)| == |om|
    ensures forall i :: 0 <= i < |om| ==>
      PutAll(om, xs)[i] == if IdOf(om[i]) in Ids(xs) then LastWith(xs, IdOf(om[i])) else om[i]
    decreases |xs|
  {
    if |xs| > 0 {
      IdsCons(xs);
      var p := FindIndex(om, IdOf(xs[0])).value;
      var om' := PutById(om, xs[0]);
      assert om' == om[p := xs[0]];
      IdsOfUpdate(om, p, xs[0]);
      UpdateKeepsUniqueIds(om, p, xs[0]);
      PutAllInPlace(om', xs[1..]);
      forall i | 0 <= i < |om|
        ensures PutAll(om, xs)[i] == if IdOf(om[i]) in Ids(xs) then LastWith(xs, IdOf(om[i])) else om[i]
      {
        assert IdOf(om'[i]) == IdOf(om[i]);
        if i != p {
          assert IdOf(om[i]) != IdOf(om[p]);
        }
      }
    }
  }

  /** The object `updateBatchesInStorage` builds: stored records first, then the incoming ones. */
  function Merged(existing: seq<SavedBatchJob>, incoming: seq<SavedBatchJob>): (r: seq<SavedBatchJob>)
    ensures UniqueIds(r)
    ensures Ids(r) == Ids(existing) + Ids(incoming)
    ensures forall x :: x in r ==> x in existing || x in incoming
  {
    assert Ids([]) == {};
    PutAll(PutAll([], existing), incoming)
  }

  lemma MergedContents(existing: seq<SavedBatchJob>, incoming: seq<SavedBatchJob>)
    ensures forall i :: 0 <= i < |incoming| && IsLastOfId(incoming, i) ==>
      incoming[i] in Merged(existing, incoming)
    ensures forall i :: 0 <= i < |existing| && IsLastOfId(existing, i) && IdOf(existing[i]) !in Ids(incoming) ==>
      existing[i] in Merged(existing, incoming)
  {
    forall i | 0 <= i < |incoming| && IsLastOfId(incoming, i)
      ensures incoming[i] in Merged(existing, incoming)
    {
      LastWithOfLast(incoming, i);
      PutAllLastWins(PutAll([], existing), incoming, IdOf(incoming[i]));
    }
    forall i | 0 <= i < |existing| && IsLastOfId(existing, i) && IdOf(existing[i]) !in Ids(incoming)
      ensures existing[i] in Merged(existing, incoming)
    {
      LastWithOfLast(existing, i);
      PutAllLastWins([], existing, IdOf(existing[i]));
    }
  }

  lemma MergedOrigins(existing: seq<SavedBatchJob>, incoming: seq<SavedBatchJob>)
    ensures forall x :: x in Merged(existing, incoming) && IdOf(x) in Ids(incoming) ==> x in incoming
    ensures forall x :: x in Merged(existing, incoming) && IdOf(x) !in Ids(incoming) ==> x in existing
  {
    var m := Merged(existing, incoming);
    forall x | x in m && IdOf(x) in Ids(incoming) ensures x in incoming {
      PutAllLastWins(PutAll([], existing), incoming, IdOf(x));
      UniqueIdsSameRecord(m, x, LastWith(incoming, IdOf(x)));
    }
  }

  /**
   * The merge of `updateBatchesInStorage`, given the incoming batches already
   * normalised: nothing happens for an empty list; otherwise each incoming
   * record replaces the stored one with its id (the last of several wins),
   * the others stay, and the result is written back sorted newest first.
   */
  function UpdateBatches(slot: Slot, incoming: seq<SavedBatchJob>): (r: Slot)
    ensures |incoming| == 0 ==> r == slot
    ensures |incoming| > 0 ==> r.Stored? && Sorting.SortedBy(r.jobs, NewestFirst)
    ensures |incoming| > 0 ==> UniqueIds(r.jobs)
    ensures |incoming| > 0 ==> Ids(r.jobs) == Ids(Load(slot)) + Ids(incoming)
    ensures |incoming| > 0 ==> forall i :: 0 <= i < |incoming| && IsLastOfId(incoming, i) ==>
      incoming[i] in r.jobs
    ensures |incoming| > 0 ==> forall i ::
      (0 <= i < |Load(slot)| && IsLastOfId(Load(slot), i) && IdOf(Load(slot)[i]) !in Ids(incoming))
      ==> Load(slot)[i] in r.jobs
    ensures |incoming| > 0 ==> forall j :: j in r.jobs && IdOf(j) in Ids(incoming) ==> j in incoming
    ensures |incoming| > 0 ==> forall j :: j in r.jobs && IdOf(j) !in Ids(incoming) ==> j in Load(slot)
  {
    if |incoming| == 0 then slot
    else
      MergedContents(Load(slot), incoming);
      MergedOrigins(Load(slot), incoming);
      Stored(SortByDate(Merged(Load(slot), incoming)))
  }

  /** `ids[k]` is the id of `incoming[k]`, for every position `k`. */
  predicate IdsListed(ids: seq<string>, incoming: seq<SavedBatchJob>) {
    |ids| == |incoming| && forall k :: 0 <= k < |ids| ==> IdOf(incoming[k]) == ids[k]
  }

  // What `UpdateBatches` promises, restated position by position for incoming
  // records whose ids are `ids`: the form in which the providers state it
  // about the snapshots they normalise.

  lemma ListedIdsStored(ids: seq<string>, incoming: seq<SavedBatchJob>, stored: seq<SavedBatchJob>)
    requires IdsListed(ids, incoming) && Ids(incoming) <= Ids(stored)
    ensures forall i :: 0 <= i < |ids| ==> ids[i] in Ids(stored)
  {
    forall i | 0 <= i < |ids| ensures ids[i] in Ids(stored) {
      assert incoming[i] in incoming;
    }
  }

  /** A stored record sharing an id with the incoming record at `k` is incoming. */
  lemma StoredWithIncomingIdIsIncoming(slot: Slot, incoming: seq<SavedBatchJob>, j: SavedBatchJob, k: int)
    ensures (0 <= k < |incoming| && IdOf(incoming[k]) == IdOf(j) && j in UpdateBatches(slot, incoming).jobs) ==>
      j in incoming
  {
    if 0 <= k < |incoming| && IdOf(incoming[k]) == IdOf(j) && j in UpdateBatches(slot, incoming).jobs {
      assert incoming[k] in incoming;
      assert IdOf(j) in Ids(incoming);
    }
  }

  /** An incoming record that no later incoming record shares an id with is stored. */
  lemma LastIncomingStored(slot: Slot, incoming: seq<SavedBatchJob>, i: int)
    requires 0 <= i < |incoming|
    requires forall m :: i < m < |incoming| ==> IdOf(incoming[m]) != IdOf(incoming[i])
    ensures incoming[i] in UpdateBatches(slot, incoming).jobs
  {
    assert IsLastOfId(incoming, i);
  }

  lemma UnlistedKept(slot: Slot, ids: seq<string>, incoming: seq<SavedBatchJob>)
    requires |incoming| > 0 && IdsListed(ids, incoming)
    ensures forall j ::
      (j in Load(slot) && UniqueIds(Load(slot)) && forall i :: 0 <= i < |ids| ==> ids[i] != IdOf(j))
        ==> j in UpdateBatches(slot, incoming).jobs
  {
    var prior := Load(slot);
    forall j | j in prior && UniqueIds(prior) && forall i :: 0 <= i < |ids| ==> ids[i] != IdOf(j)
      ensures j in UpdateBatches(slot, incoming).jobs
    {
      var i :| 0 <= i < |prior| && prior[i] == j;
      assert IsLastOfId(prior, i);
      forall x | x in incoming ensures IdOf(x) != IdOf(j) {
        var k :| 0 <= k < |incoming| && incoming[k] == x;
        assert ids[k] != IdOf(j);
      }
    }
  }

  lemma PutAllFixpoint(once: seq<SavedBatchJob>, incoming: seq<SavedBatchJob>)
    requires UniqueIds(once)
    requires Ids(incoming) <= Ids(once)
    requires forall k :: k in Ids(incoming) ==> LastWith(incoming, k) in once
    ensures PutAll(once, incoming) == once
  {
    PutAllInPlace(once, incoming);
    forall i | 0 <= i < |once| && IdOf(once[i]) in Ids(incoming)
      ensures once[i] == LastWith(incoming, IdOf(once[i]))
    {
      var w := LastWith(incoming, IdOf(once[i]));
      var p :| 0 <= p < |once| && once[p] == w;
      assert IdOf(once[p]) == IdOf(once[i]);
    }
  }

  lemma MergedHoldsLast(existing: seq<SavedBatchJob>, incoming: seq<SavedBatchJob>)
    ensures forall k :: k in Ids(incoming) ==> LastWith(incoming, k) in SortByDate(Merged(existing, incoming))
  {
    forall k | k in Ids(incoming) ensures LastWith(incoming, k) in SortByDate(Merged(existing, incoming)) {
      PutAllLastWins(PutAll([], existing), incoming, k);
    }
  }

  lemma MergeOfMerged(existing: seq<SavedBatchJob>, incoming: seq<SavedBatchJob>)
    ensures var once := SortByDate(Merged(existing, incoming)); Merged(once, incoming) == once
  {
    var m := Merged(existing, incoming);
    var once := SortByDate(m);
    assert UniqueIds(once);
    assert Ids(incoming) <= Ids(once);
    var empty: seq<SavedBatchJob> := [];
    assert Ids(empty) == {};
    PutAllAppends(empty, once);
    assert PutAll(empty, once) == once;
    MergedHoldsLast(existing, incoming);
    PutAllFixpoint(once, incoming);
    assert PutAll(once, incoming) == once;
  }

  /** Merging the same normalised batches twice stores what merging them once does. */
  lemma UpdateBatchesIdempotent(slot: Slot, incoming: seq<SavedBatchJob>)
    ensures UpdateBatches(UpdateBatches(slot, incoming), incoming) == UpdateBatches(slot, incoming)
  {
    if |incoming| > 0 {
      var once := SortByDate(Merged(Load(slot), incoming));
      assert UpdateBatches(slot, incoming) == Stored(once);
      MergeOfMerged(Load(slot), incoming);
      Sorting.SortOfSorted(once, NewestFirst);
    }
  }

  // ---------------------------------------------------------------------------
  // Re-applying the same batches later
  // ---------------------------------------------------------------------------

  /** `x` and `y` differ at most in when they were last checked. */
  predicate Restamped(x: SavedBatchJob, y: SavedBatchJob) {
    x.info == y.info && x.date == y.date
  }

  /** `ys` is `xs` with each record restamped, position by position. */
  predicate RestampedAll(xs: seq<SavedBatchJob>, ys: seq<SavedBatchJob>) {
    |xs| == |ys| && forall i :: 0 <= i < |xs| ==> Restamped(xs[i], ys[i])
  }

  lemma IdsRestamped(xs: seq<SavedBatchJob>, ys: seq<SavedBatchJob>)
    requires RestampedAll(xs, ys)
    ensures Ids(xs) == Ids(ys)
  {
    forall k | k in Ids(xs) ensures k in Ids(ys) {
      var j :| j in xs && IdOf(j) == k;
      var m :| 0 <= m < |xs| && xs[m] == j;
      assert ys[m] in ys;
    }
    forall k | k in Ids(ys) ensures k in Ids(xs) {
      var j :| j in ys && IdOf(j) == k;
      var m :| 0 <= m < |ys| && ys[m] == j;
      assert xs[m] in xs;
    }
  }

  lemma {:induction false} LastWithRestamped(xs: seq<SavedBatchJob>, ys: seq<SavedBatchJob>, k: string)
    requires RestampedAll(xs, ys) && k in Ids(xs)
    ensures k in Ids(ys) && Restamped(LastWith(xs, k), LastWith(ys, k))
    decreases |xs|
  {
    IdsRestamped(xs, ys);
    IdsCons(xs);
    IdsCons(ys);
    assert RestampedAll(xs[1..], ys[1..]) by {
      forall i | 0 <= i < |xs[1..]| ensures Restamped(xs[1..][i], ys[1..][i]) {
        assert xs[1..][i] == xs[i + 1] && ys[1..][i] == ys[i + 1];
      }
    }
    IdsRestamped(xs[1..], ys[1..]);
    if k in Ids(xs[1..]) {
      LastWithRestamped(xs[1..], ys[1..], k);
    }
  }

  /** Sortedness by date only looks at dates, which restamping keeps. */
  lemma SortedRestamped(xs: seq<SavedBatchJob>, ys: seq<SavedBatchJob>)
    requires RestampedAll(xs, ys) && Sorting.SortedBy(xs, NewestFirst)
    ensures Sorting.SortedBy(ys, NewestFirst)
  {
    forall i | 0 < i < |ys| ensures NewestFirst(ys[i - 1], ys[i]) {
      assert Restamped(xs[i - 1], ys[i - 1]) && Restamped(xs[i], ys[i]);
    }
  }

  /**
   * Putting restamped copies of records an object already holds restamps them
   * in place: the object keeps its order, and each touched record becomes the
   * last copy given for its id.
   */
  lemma PutAllRestamped(once: seq<SavedBatchJob>, inc1: seq<SavedBatchJob>, inc2: seq<SavedBatchJob>)
    requires UniqueIds(once) && RestampedAll(inc1, inc2)
    requires Ids(inc1) <= Ids(once)
    requires forall k :: k in Ids(inc1) ==> LastWith(inc1, k) in once
    ensures var m := PutAll(once, inc2);
      && RestampedAll(once, m)
      && (forall i :: 0 <= i < |once| && IdOf(once[i]) !in Ids(inc2) ==> m[i] == once[i])
      && (forall i :: 0 <= i < |once| && IdOf(once[i]) in Ids(inc2) ==> m[i] == LastWith(inc2, IdOf(once[i])))
  {
    IdsRestamped(inc1, inc2);
    PutAllInPlace(once, inc2);
    var m := PutAll(once, inc2);
    forall i | 0 <= i < |once| ensures Restamped(once[i], m[i]) {
      var k := IdOf(once[i]);
      if k in Ids(inc2) {
        UniqueIdsSameRecord(once, once[i], LastWith(inc1, k));
        LastWithRestamped(inc1, inc2, k);
      }
    }
  }

  /**
   * `twice` is `once` with the records whose id is `named` checked at `now`:
   * same length, same fields and dates, and the other check times kept.
   */
  predicate RecheckedAt(once: seq<SavedBatchJob>, twice: seq<SavedBatchJob>, named: set<string>, now: int) {
    && RestampedAll(once, twice)
    && forall i :: 0 <= i < |once| ==>
         twice[i].lastChecked == if IdOf(once[i]) in named then now else once[i].lastChecked
  }

  /** Merging restamped copies into a sorted object that already holds the originals restamps it in place. */
  lemma MergeRestamped(once: seq<SavedBatchJob>, inc1: seq<SavedBatchJob>, inc2: seq<SavedBatchJob>)
    requires UniqueIds(once) && Sorting.SortedBy(once, NewestFirst) && RestampedAll(inc1, inc2)
    requires Ids(inc1) <= Ids(once)
    requires forall k :: k in Ids(inc1) ==> LastWith(inc1, k) in once
    ensures SortByDate(Merged(once, inc2)) == PutAll(once, inc2)
  {
    var empty: seq<SavedBatchJob> := [];
    assert Ids(empty) == {};
    PutAllAppends(empty, once);
    assert PutAll(empty, once) == once;
    assert Merged(once, inc2) == PutAll(PutAll(empty, once), inc2);
    PutAllRestamped(once, inc1, inc2);
    var m := PutAll(once, inc2);
    SortedRestamped(once, m);
    Sorting.SortOfSorted(m, NewestFirst);
  }

  /**
   * Merging restamped copies of the same batches into the result of merging
   * them changes nothing but `lastChecked`: every record stays at its place,
   * the ones the batches name become their last copy, and the rest are kept.
   */
  lemma UpdateBatchesRestamped(slot: Slot, inc1: seq<SavedBatchJob>, inc2: seq<SavedBatchJob>)
    requires RestampedAll(inc1, inc2)
    ensures var once := Load(UpdateBatches(slot, inc1));
      var twice := Load(UpdateBatches(UpdateBatches(slot, inc1), inc2));
      && RestampedAll(once, twice)
      && (forall i :: 0 <= i < |once| && IdOf(once[i]) !in Ids(inc2) ==> twice[i] == once[i])
      && (forall i :: 0 <= i < |once| && IdOf(once[i]) in Ids(inc2) ==> twice[i] == LastWith(inc2, IdOf(once[i])))
  {
    IdsRestamped(inc1, inc2);
    if |inc1| > 0 {
      var once := SortByDate(Merged(Load(slot), inc1));
      UpdateIsSortedMerge(slot, inc1);
      MergedHoldsLast(Load(slot), inc1);
      MergeRestamped(once, inc1, inc2);
      PutAllRestamped(once, inc1, inc2);
      UpdateIsSortedMerge(Stored(once), inc2);
    }
  }

  /** A non-empty update writes back the sorted merge. */
  lemma UpdateIsSortedMerge(slot: Slot, incoming: seq<SavedBatchJob>)
    requires |incoming| > 0
    ensures UpdateBatches(slot, incoming) == Stored(SortByDate(Merged(Load(slot), incoming)))
  {
  }

  /** Merging one batch into an entry that is empty or holds one record with its id leaves exactly that batch. */
  lemma UpdateSingle(slot: Slot, x: SavedBatchJob)
    requires |Load(slot)| <= 1 && Ids(Load(slot)) <= {IdOf(x)}
    ensures Load(UpdateBatches(slot, [x])) == [x]
  {
    var prior := Load(slot);
    var empty: seq<SavedBatchJob> := [];
    assert Ids(empty) == {};
    PutAllAppends(empty, prior);
    assert PutAll(empty, prior) == prior;
    assert PutAll(prior, [x]) == PutAll(PutById(prior, x), [x][1..]);
    assert [x][1..] == [];
    if |prior| == 1 {
      assert prior[0] in prior;
      assert FindIndex(prior, IdOf(x)) == Some(0);
    }
    assert PutById(prior, x) == [x];
    Sorting.SortOfSorted([x], NewestFirst);
  }

  /**
   * `UpdateBatchesRestamped` for copies all checked at one instant: the
   * records they name carry that instant, the others their old check time.
   */
  lemma UpdateBatchesRechecked(slot: Slot, inc1: seq<SavedBatchJob>, inc2: seq<SavedBatchJob>, now: int)
    requires RestampedAll(inc1, inc2)
    requires forall j :: j in inc2 ==> j.lastChecked == now
    ensures RecheckedAt(Load(UpdateBatches(slot, inc1)), Load(UpdateBatches(UpdateBatches(slot, inc1), inc2)), Ids(inc2), now)
  {
    UpdateBatchesRestamped(slot, inc1, inc2);
    var once := Load(UpdateBatches(slot, inc1));
    forall i | 0 <= i < |once| && IdOf(once[i]) in Ids(inc2)
      ensures LastWith(inc2, IdOf(once[i])).lastChecked == now
    {
    }
  }
}
