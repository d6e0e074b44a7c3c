/**
 * The OpenAI client (`OpenAIApiService`): key-format check, status
 * normaliser, the conversion of a batch response into the common status,
 * the request `createBatchJob` submits, and its batch store. Network calls
 * are replaced by their outcomes, passed in as `Result`s.
 */
module OpenAIApi {
  import opened Wrappers
  import opened Interfaces
  import BatchStore
  import Sorting

  const DefaultEndpoint := "/v1/chat/completions"
  const DefaultWindow := "24h"

  /** `isValidApiKeyFormat`: a non-empty key that starts with `sk-`. */
  function IsValidApiKeyFormat(key: string): (r: bool)
    ensures r <==> |key| >= 3 && key == "sk-" + key[3..]
    ensures r ==> key != ""
  {
    key != "" && |key| >= 3 && key[..3] == "sk-"
  }

  /** `_mapStatusToCommon`: OpenAI's batch status vocabulary onto the common one. */
  function MapStatusToCommon(raw: string): (r: CommonStatus)
    ensures r == Completed <==> raw == "completed"
    ensures r == InProgress <==> raw in {"processing", "in_progress", "cancelling"}
    ensures r == Cancelled <==> raw == "cancelled"
    ensures r == Failed <==> raw == "failed"
    ensures r == Expired <==> raw == "expired"
    ensures r == Pending <==>
      raw !in {"completed", "processing", "in_progress", "cancelling", "cancelled", "failed", "expired"}
  {
    match raw
    case "completed" => Completed
    case "processing" => InProgress
    case "in_progress" => InProgress
    case "validating" => Pending
    case "cancelling" => InProgress
    case "cancelled" => Cancelled
    case "failed" => Failed
    case "expired" => Expired
    case _ => Pending
  }

  /** Every common status name maps back to itself. */
  lemma MapStatusFixesCommonNames(c: CommonStatus)
    ensures MapStatusToCommon(Name(c)) == c
  {
  }

  /** So re-normalising an already normalised status changes nothing. */
  lemma MapStatusIdempotent(raw: string)
    ensures MapStatusToCommon(Name(MapStatusToCommon(raw))) == MapStatusToCommon(raw)
  {
    MapStatusFixesCommonNames(MapStatusToCommon(raw));
  }

  /** `new Date(seconds * 1000)`: a Unix time in seconds as epoch milliseconds. */
  function UnixToMillis(seconds: int): int {
    seconds * 1000
  }

  /** `t ? convert(t) : null` for a Unix time: `0` and absent both give `null`. */
  function TruthyUnix(t: Option<int>): (r: Option<int>)
    ensures r.None? <==> t.None? || t.value == 0
    ensures r.Some? ==> r.value == UnixToMillis(t.value)
  {
    if t.Some? && t.value != 0 then Some(UnixToMillis(t.value)) else None
  }

  /**
   * `request_counts` renamed to the common vocabulary: OpenAI's `completed`
   * becomes `succeeded`, `failed` becomes `errored`, `total` stays; an absent
   * counter reads as 0.
   */
  function RemapCounts(counts: Option<Counts>): (r: Counts)
    ensures r.Keys == {"succeeded", "errored", "total"}
    ensures r["succeeded"] == CountOf(counts, "completed")
    ensures r["errored"] == CountOf(counts, "failed")
    ensures r["total"] == CountOf(counts, "total")
  {
    map["succeeded" := CountOf(counts, "completed"),
        "errored" := CountOf(counts, "failed"),
        "total" := CountOf(counts, "total")]
  }

  /** The body of `GET /v1/batches/{id}` that the client reads. Times are Unix seconds. */
  datatype BatchResponse = BatchResponse(
    id: string,
    endpoint: string,
    inputFileId: Option<string>,
    completionWindow: string,
    status: string,
    outputFileId: Option<string>,
    createdAt: int,
    expiresAt: Option<int>,
    completedAt: Option<int>,
    requestCounts: Option<Counts>)

  /** The common status built from a response. */
  function StatusFromResponse(data: BatchResponse): (r: BatchStatus)
    ensures r.id == data.id && IsCommonName(r.status)
    ensures FromName(r.status) == Some(MapStatusToCommon(data.status))
    ensures r.createdAt == Some(UnixToMillis(data.createdAt))
    ensures r.completedAt.None? <==> data.completedAt.None? || data.completedAt.value == 0
    ensures r.completedAt.Some? ==> r.completedAt.value == UnixToMillis(data.completedAt.value)
    ensures r.eta.None? <==> data.expiresAt.None? || data.expiresAt.value == 0
    ensures r.eta.Some? ==> r.eta.value == UnixToMillis(data.expiresAt.value)
    ensures r.inputFileId == data.inputFileId && r.outputFileId == data.outputFileId
    ensures r.endpoint == data.endpoint && r.completionWindow == data.completionWindow
    ensures r.requestCounts == Some(RemapCounts(data.requestCounts))
    ensures r.totalCount == Some(CountOf(data.requestCounts, "total"))
    ensures r.resultsUrl.None?
  {
    NameRoundTrip(MapStatusToCommon(data.status));
    BatchStatus(
      data.id,
      Name(MapStatusToCommon(data.status)),
      Some(UnixToMillis(data.createdAt)),
      TruthyUnix(data.completedAt),
      TruthyUnix(data.expiresAt),
      data.outputFileId,
      data.inputFileId,
      Some(RemapCounts(data.requestCounts)),
      Some(CountOf(data.requestCounts, "total")),
      None,
      data.endpoint,
      data.completionWindow)
  }

  /**
   * `getBatchStatus`: fails before any request without a key, passes on a
   * failed request's error, and otherwise converts the response.
   */
  function GetBatchStatus(key: Option<string>, response: Result<BatchResponse, Error>): (r: Result<BatchStatus, Error>)
    ensures !Given(key) ==> r == Err(AuthMissing)
    ensures Given(key) && response.Err? ==> r == Err(response.error)
    ensures Given(key) && response.Ok? ==> r == Ok(StatusFromResponse(response.value))
    ensures r.Ok? ==> r.value.requestCounts == Some(RemapCounts(response.value.requestCounts))
    ensures r.Ok? ==> r.value.totalCount == Some(CountOf(response.value.requestCounts, "total"))
  {
    if !Given(key) then Err(AuthMissing)
    else
      var data :- response;
      Ok(StatusFromResponse(data))
  }

  /** What `createBatchJob` is given: an uploaded file's id, or a file to upload first. */
  datatype BatchInput = FileId(id: string) | RawFile(content: string)

  /** The JSON body `POST /v1/batches` sends. */
  datatype SubmitBody = SubmitBody(inputFileId: string, endpoint: string, completionWindow: string)

  /**
   * `createBatchJob`: the request it submits. `upload` is the outcome
   * `uploadFile` would have for a raw file; an absent `endpoint` or `window`
   * takes its default parameter value.
   */
  function CreateBatchJob(input: BatchInput, endpoint: Option<string>, window: Option<string>,
                          key: Option<string>, upload: Result<string, Error>): (r: Result<SubmitBody, Error>)
    ensures !Given(key) ==> r == Err(AuthMissing)
    ensures Given(key) && input.RawFile? && upload.Err? ==> r == Err(upload.error)
    ensures r.Ok? <==> Given(key) && (input.FileId? || upload.Ok?)
    ensures r.Ok? ==> r.value.inputFileId == if input.FileId? then input.id else upload.value
    ensures r.Ok? ==> r.value.endpoint == endpoint.GetOr(DefaultEndpoint)
    ensures r.Ok? ==> r.value.completionWindow == window.GetOr(DefaultWindow)
  {
    if !Given(key) then Err(AuthMissing)
    else
      var fileId :- match input
        case FileId(id) => Ok(id)
        case RawFile(_) => upload;
      Ok(SubmitBody(fileId, endpoint.GetOr(DefaultEndpoint), window.GetOr(DefaultWindow)))
  }

  /** Given a file id, nothing is uploaded: the outcome an upload would have makes no difference. */
  lemma FileIdSkipsUpload(id: string, endpoint: Option<string>, window: Option<string>, key: Option<string>,
                          upload1: Result<string, Error>, upload2: Result<string, Error>)
    ensures CreateBatchJob(FileId(id), endpoint, window, key, upload1)
         == CreateBatchJob(FileId(id), endpoint, window, key, upload2)
    ensures Given(key) ==> CreateBatchJob(FileId(id), endpoint, window, key, upload1).Ok?
  {
  }

  // ---------------------------------------------------------------------------
  // Batch store
  // ---------------------------------------------------------------------------

  /** `saveBatchInfo` on the `openai_batch_jobs` entry. */
  function SaveBatchInfo(slot: BatchStore.Slot, p: BatchStore.Partial, now: int): (r: BatchStore.Slot)
    ensures BatchStore.HasId(p) && p.id.value !in BatchStore.Ids(BatchStore.Load(slot)) && !Given(p.endpoint) ==>
      exists j :: j in BatchStore.Load(r) && IdOf(j) == p.id.value && j.info.endpoint == DefaultEndpoint
  {
    var r := BatchStore.SaveBatchInfo(slot, p, now, DefaultEndpoint);
    if BatchStore.HasId(p) && BatchStore.FindIndex(BatchStore.Load(slot), p.id.value).None? then
      assert BatchStore.NewJob(p, now, DefaultEndpoint) in multiset(r.jobs);
      r
    else
      r
  }

  /** `getSavedBatchJobs` on the `openai_batch_jobs` entry. */
  function GetSavedBatchJobs(slot: BatchStore.Slot): (r: seq<SavedBatchJob>)
    ensures slot.Stored? ==> r == slot.jobs
    ensures !slot.Stored? ==> r == []
  {
    BatchStore.Load(slot)
  }

  /** A stamp that may arrive as Unix seconds (a number) or as an ISO string (an instant). */
  datatype Stamp = Unix(seconds: int) | Iso(millis: int)

  /** `typeof t === 'number' ? convert(t) : t`. */
  function StampMillis(t: Stamp): int {
    match t
    case Unix(s) => UnixToMillis(s)
    case Iso(ms) => ms
  }

  /** `t ? (typeof t === 'number' ? convert(t) : t) : null`: only the number 0 is falsy. */
  function TruthyStamp(t: Option<Stamp>): (r: Option<int>)
    ensures r.None? <==> t.None? || t.value == Unix(0)
    ensures r.Some? ==> r.value == StampMillis(t.value)
  {
    match t
    case Some(Unix(s)) => if s != 0 then Some(UnixToMillis(s)) else None
    case Some(Iso(ms)) => Some(ms)
    case None => None
  }

  /** One batch handed to `updateBatchesInStorage`, before normalisation; absent fields are `None`. */
  datatype Snapshot = Snapshot(
    id: string,
    status: Option<string>,
    createdAt: Option<Stamp>,
    completedAt: Option<Stamp>,
    expiresAt: Option<Stamp>,
    inputFileId: Option<string>,
    outputFileId: Option<string>,
    requestCounts: Option<Counts>,
    endpoint: Option<string>,
    completionWindow: Option<string>,
    resultsUrl: Option<string>)

  /** The record `updateBatchesInStorage` stores for one snapshot. */
  function Normalize(s: Snapshot, now: int): (r: SavedBatchJob)
    ensures IdOf(r) == s.id && IsCommonName(r.info.status)
    ensures FromName(r.info.status) == Some(MapStatusToCommon(s.status.GetOr("")))
    ensures r.lastChecked == now
    ensures s.createdAt.Some? ==> r.info.createdAt == Some(r.date) && r.date == StampMillis(s.createdAt.value)
    ensures s.createdAt.None? ==> r.info.createdAt.None? && r.date == now
    ensures r.info.totalCount == Some(CountOf(s.requestCounts, "total"))
    ensures r.info.requestCounts == Some(RemapCounts(s.requestCounts))
    ensures r.info.endpoint == StringOr(s.endpoint, DefaultEndpoint)
    ensures r.info.completionWindow == StringOr(s.completionWindow, DefaultWindow)
    ensures r.info.completedAt == TruthyStamp(s.completedAt) && r.info.eta == TruthyStamp(s.expiresAt)
    ensures r.info.inputFileId == s.inputFileId && r.info.outputFileId == s.outputFileId
    ensures r.info.resultsUrl == s.resultsUrl
  {
    NameRoundTrip(MapStatusToCommon(s.status.GetOr("")));
    var created := if s.createdAt.Some? then Some(StampMillis(s.createdAt.value)) else None;
    SavedBatchJob(
      BatchStatus(
        s.id,
        Name(MapStatusToCommon(s.status.GetOr(""))),
        created,
        TruthyStamp(s.completedAt),
        TruthyStamp(s.expiresAt),
        s.outputFileId,
        s.inputFileId,
        Some(RemapCounts(s.requestCounts)),
        Some(CountOf(s.requestCounts, "total")),
        s.resultsUrl,
        StringOr(s.endpoint, DefaultEndpoint),
        StringOr(s.completionWindow, DefaultWindow)),
      created.GetOr(now),
      now)
  }

  /** Normalises every snapshot, in order. */
  function NormalizeAll(snaps: seq<Snapshot>, now: int): (r: seq<SavedBatchJob>)
    ensures |r| == |snaps|
    ensures forall i :: 0 <= i < |snaps| ==> r[i] == Normalize(snaps[i], now)
  {
    seq(|snaps|, i requires 0 <= i < |snaps| => Normalize(snaps[i], now))
  }

  /**
   * `updateBatchesInStorage` on the `openai_batch_jobs` entry: a no-op for no
   * snapshots; otherwise every snapshot id ends up stored exactly once, and
   * the entry is sorted newest first. Which record each id keeps is stated
   * by the lemmas below.
   */
  function UpdateBatchesInStorage(slot: BatchStore.Slot, snaps: seq<Snapshot>, now: int): (r: BatchStore.Slot)
    ensures |snaps| == 0 ==> r == slot
    ensures |snaps| > 0 ==> r.Stored? && Sorting.SortedBy(r.jobs, BatchStore.NewestFirst)
    ensures |snaps| > 0 ==> BatchStore.UniqueIds(r.jobs)
    ensures |snaps| > 0 ==> forall i :: 0 <= i < |snaps| ==> snaps[i].id in BatchStore.Ids(r.jobs)
  {
    var incoming := NormalizeAll(snaps, now);
    var r := BatchStore.UpdateBatches(slot, incoming);
    if |snaps| > 0 then
      BatchStore.ListedIdsStored(SnapshotIds(snaps), incoming, r.jobs);
      r
    else
      r
  }

  /** The ids of the snapshots, in order. */
  function SnapshotIds(snaps: seq<Snapshot>): (ids: seq<string>)
    ensures |ids| == |snaps| && forall i :: 0 <= i < |snaps| ==> ids[i] == snaps[i].id
  {
    seq(|snaps|, i requires 0 <= i < |snaps| => snaps[i].id)
  }

  /** The last snapshot of each id is stored, normalised. */
  lemma LastSnapshotWins(slot: BatchStore.Slot, snaps: seq<Snapshot>, now: int, i: int)
    requires 0 <= i < |snaps|
    requires forall m :: i < m < |snaps| ==> snaps[m].id != snaps[i].id
    ensures Normalize(snaps[i], now) in UpdateBatchesInStorage(slot, snaps, now).jobs
  {
    var incoming := NormalizeAll(snaps, now);
    forall m | i < m < |incoming| ensures IdOf(incoming[m]) != IdOf(incoming[i]) {
      assert IdOf(incoming[m]) == snaps[m].id && IdOf(incoming[i]) == snaps[i].id;
    }
    BatchStore.LastIncomingStored(slot, incoming, i);
  }

  /** A stored record with a snapshot's id is a normalised snapshot, checked now. */
  lemma UpdatedRecordsNormalised(slot: BatchStore.Slot, snaps: seq<Snapshot>, now: int, j: SavedBatchJob, i: int)
    ensures (0 <= i < |snaps| && snaps[i].id == IdOf(j) && j in UpdateBatchesInStorage(slot, snaps, now).jobs) ==>
        && (exists k :: 0 <= k < |snaps| && j == Normalize(snaps[k], now))
        && IsCommonName(j.info.status) && j.lastChecked == now
  {
    if 0 <= i < |snaps| && snaps[i].id == IdOf(j) && j in UpdateBatchesInStorage(slot, snaps, now).jobs {
      var incoming := NormalizeAll(snaps, now);
      assert j in incoming by {
        assert UpdateBatchesInStorage(slot, snaps, now) == BatchStore.UpdateBatches(slot, incoming);
        BatchStore.StoredWithIncomingIdIsIncoming(slot, incoming, j, i);
      }
      NormalizedMember(snaps, now, j);
    }
  }

  /** A record among the normalised snapshots is one of them, normalised. */
  lemma NormalizedMember(snaps: seq<Snapshot>, now: int, j: SavedBatchJob)
    requires j in NormalizeAll(snaps, now)
    ensures exists k :: 0 <= k < |snaps| && j == Normalize(snaps[k], now)
    ensures IsCommonName(j.info.status) && j.lastChecked == now
  {
    var incoming := NormalizeAll(snaps, now);
    var k :| 0 <= k < |incoming| && incoming[k] == j;
    assert j == Normalize(snaps[k], now);
  }

  /** A stored record whose id no snapshot carries stays as it was. */
  lemma UntouchedRecordsKept(slot: BatchStore.Slot, snaps: seq<Snapshot>, now: int, j: SavedBatchJob)
    requires |snaps| > 0
    requires j in BatchStore.Load(slot) && BatchStore.UniqueIds(BatchStore.Load(slot))
    requires forall i :: 0 <= i < |snaps| ==> snaps[i].id != IdOf(j)
    ensures j in UpdateBatchesInStorage(slot, snaps, now).jobs
  {
    BatchStore.UnlistedKept(slot, SnapshotIds(snaps), NormalizeAll(snaps, now));
  }

  /** Applying the same snapshots twice stores what applying them once does. */
  lemma UpdateTwice(slot: BatchStore.Slot, snaps: seq<Snapshot>, now: int)
    ensures UpdateBatchesInStorage(UpdateBatchesInStorage(slot, snaps, now), snaps, now)
         == UpdateBatchesInStorage(slot, snaps, now)
  {
    BatchStore.UpdateBatchesIdempotent(slot, NormalizeAll(snaps, now));
  }

  /**
   * Applying the same snapshots again at a later instant, when each carries
   * its creation time, only restamps: every record keeps its place, its
   * fields and its date; the records the snapshots name are checked at the
   * later instant and the others keep their check time.
   */
  lemma UpdateAgainLater(slot: BatchStore.Slot, snaps: seq<Snapshot>, now1: int, now2: int)
    requires forall i :: 0 <= i < |snaps| ==> snaps[i].createdAt.Some?
    ensures BatchStore.RecheckedAt(BatchStore.Load(UpdateBatchesInStorage(slot, snaps, now1)),
                                   BatchStore.Load(UpdateBatchesInStorage(UpdateBatchesInStorage(slot, snaps, now1), snaps, now2)),
                                   (set k | k in SnapshotIds(snaps)), now2)
  {
    var inc1 := NormalizeAll(snaps, now1);
    RenormalizedRechecked(snaps, now1, now2);
    BatchStore.UpdateBatchesRechecked(slot, inc1, NormalizeAll(snaps, now2), now2);
    StorageIsUpdate(slot, snaps, now1);
    StorageIsUpdate(BatchStore.UpdateBatches(slot, inc1), snaps, now2);
  }

  /** What `BatchStore.UpdateBatchesRechecked` needs of the snapshots normalised at two instants. */
  lemma RenormalizedRechecked(snaps: seq<Snapshot>, now1: int, now2: int)
    requires forall i :: 0 <= i < |snaps| ==> snaps[i].createdAt.Some?
    ensures BatchStore.RestampedAll(NormalizeAll(snaps, now1), NormalizeAll(snaps, now2))
    ensures forall j :: j in NormalizeAll(snaps, now2) ==> j.lastChecked == now2
    ensures BatchStore.Ids(NormalizeAll(snaps, now2)) == (set k | k in SnapshotIds(snaps))
  {
    var inc2 := NormalizeAll(snaps, now2);
    NormalizeRestamped(snaps, now1, now2);
    forall j | j in inc2 ensures j.lastChecked == now2 {
      NormalizedMember(snaps, now2, j);
    }
    NormalizedIds(snaps, now2);
  }

  /** The stored entry after an update is the store's merge of the normalised snapshots. */
  lemma StorageIsUpdate(slot: BatchStore.Slot, snaps: seq<Snapshot>, now: int)
    ensures UpdateBatchesInStorage(slot, snaps, now) == BatchStore.UpdateBatches(slot, NormalizeAll(snaps, now))
  {
  }

  /** Normalising the same snapshots at two instants gives records that differ only in their check time. */
  lemma NormalizeRestamped(snaps: seq<Snapshot>, now1: int, now2: int)
    requires forall i :: 0 <= i < |snaps| ==> snaps[i].createdAt.Some?
    ensures BatchStore.RestampedAll(NormalizeAll(snaps, now1), NormalizeAll(snaps, now2))
  {
    var inc1 := NormalizeAll(snaps, now1);
    var inc2 := NormalizeAll(snaps, now2);
    forall i | 0 <= i < |inc1| ensures BatchStore.Restamped(inc1[i], inc2[i]) {
      assert inc1[i] == Normalize(snaps[i], now1) && inc2[i] == Normalize(snaps[i], now2);
    }
  }

  /** The ids of the normalised snapshots are the snapshots' ids. */
  lemma NormalizedIds(snaps: seq<Snapshot>, now: int)
    ensures forall k :: k in BatchStore.Ids(NormalizeAll(snaps, now)) <==> k in SnapshotIds(snaps)
  {
    var inc := NormalizeAll(snaps, now);
    var ids := SnapshotIds(snaps);
    forall k | k in BatchStore.Ids(inc) ensures k in ids {
      var j :| j in inc && IdOf(j) == k;
      var m :| 0 <= m < |inc| && inc[m] == j;
      assert ids[m] == k;
    }
    forall k | k in ids ensures k in BatchStore.Ids(inc) {
      var m :| 0 <= m < |ids| && ids[m] == k;
      assert inc[m] in inc && IdOf(inc[m]) == k;
    }
  }

  /**
   * A snapshot without a creation time is dated by the clock, so applying it
   * again later re-dates its record: the later update stores the record the
   * later instant gives, not a restamped copy of the first.
   */
  lemma UndatedSnapshotRedated(s: Snapshot, now1: int, now2: int)
    requires s.createdAt.None?
    ensures BatchStore.Load(UpdateBatchesInStorage(BatchStore.Missing, [s], now1)) == [Normalize(s, now1)]
    ensures BatchStore.Load(UpdateBatchesInStorage(UpdateBatchesInStorage(BatchStore.Missing, [s], now1), [s], now2))
         == [Normalize(s, now2)]
    ensures Normalize(s, now1).date == now1 && Normalize(s, now2).date == now2
  {
    var n1 := Normalize(s, now1);
    var n2 := Normalize(s, now2);
    assert NormalizeAll([s], now1) == [n1];
    assert NormalizeAll([s], now2) == [n2];
    assert BatchStore.Ids([]) == {};
    BatchStore.UpdateSingle(BatchStore.Missing, n1);
    var first := UpdateBatchesInStorage(BatchStore.Missing, [s], now1);
    assert BatchStore.Ids([n1]) == {IdOf(n2)} by {
      BatchStore.IdsCons([n1]);
      assert [n1][1..] == [];
    }
    BatchStore.UpdateSingle(first, n2);
  }
}
