/**
 * The shared vocabulary of both provider clients: the normalised status
 * enumeration, the `BatchStatus` and `SavedBatchJob` records, and the errors
 * the clients raise.
 */
module Interfaces {
  import opened Wrappers

  /** The normalised status every provider status is mapped onto. */
  datatype CommonStatus = Pending | InProgress | Completed | Cancelled | Failed | Expired

  /** The string a normalised status is stored as. */
  function Name(c: CommonStatus): string {
    match c
    case Pending => "pending"
    case InProgress => "in_progress"
    case Completed => "completed"
    case Cancelled => "cancelled"
    case Failed => "failed"
    case Expired => "expired"
  }

  /** Reads a stored status string back, if it is one of the six names. */
  function FromName(s: string): (r: Option<CommonStatus>)
    ensures r.Some? ==> Name(r.value) == s
  {
    match s
    case "pending" => Some(Pending)
    case "in_progress" => Some(InProgress)
    case "completed" => Some(Completed)
    case "cancelled" => Some(Cancelled)
    case "failed" => Some(Failed)
    case "expired" => Some(Expired)
    case _ => None
  }

  /** Every normalised status is read back as itself, so the names are distinct. */
  lemma NameRoundTrip(c: CommonStatus)
    ensures FromName(Name(c)) == Some(c)
  {
  }

  /** The six status names, the only values a normaliser writes. */
  predicate IsCommonName(s: string) {
    FromName(s).Some?
  }

  /** Per-sub-status request counters, e.g. `{succeeded: 2, errored: 0}`. */
  type Counts = map<string, int>

  /** `counts?.[key] || 0`: an absent map or counter reads as zero. */
  function CountOf(counts: Option<Counts>, key: string): (r: int)
    ensures counts.Some? && key in counts.value ==> r == counts.value[key]
    ensures counts.None? || key !in counts.value ==> r == 0
  {
    if counts.Some? && key in counts.value then counts.value[key] else 0
  }

  /**
   * The provider-independent status of one batch. Timestamps are epoch
   * milliseconds (the instant an ISO-8601 string denotes); `None` stands
   * for `null` or an absent field.
   */
  datatype BatchStatus = BatchStatus(
    id: string,
    status: string,
    createdAt: Option<int>,
    completedAt: Option<int>,
    eta: Option<int>,
    outputFileId: Option<string>,
    inputFileId: Option<string>,
    requestCounts: Option<Counts>,
    totalCount: Option<int>,
    resultsUrl: Option<string>,
    endpoint: string,
    completionWindow: string)

  /** A batch as kept in the browser's storage: its status plus a sort date and the time of the last write. */
  datatype SavedBatchJob = SavedBatchJob(info: BatchStatus, date: int, lastChecked: int)

  /** The identity key of a saved batch. */
  function IdOf(j: SavedBatchJob): string {
    j.info.id
  }

  /** The failures a client reports to its caller. */
  datatype Error =
    | AuthMissing
    | ProviderError(message: string)
    | NotReady
    | ReadFailed

  /** An optional string that JavaScript finds truthy: present and non-empty (`if (!apiKey)` fails otherwise). */
  predicate Given(v: Option<string>) {
    v.Some? && v.value != ""
  }

  /** `v || fallback` for an optional string: the empty string is falsy. */
  function StringOr(v: Option<string>, fallback: string): (r: string)
    ensures v.Some? && v.value != "" ==> r == v.value
    ensures v.None? || v.value == "" ==> r == fallback
  {
    if v.Some? && v.value != "" then v.value else fallback
  }
}
