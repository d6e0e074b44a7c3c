/**
 * The Anthropic client (`AnthropicApiService`): key-format check, status
 * normaliser, the translation of a JSONL file into Message Batches requests,
 * the conversion of a batch response into the common status, the results
 * download guard, and its batch store. Network calls are replaced by their
 * outcomes, passed in as `Result`s; the JSON text grammar is replaced by a
 * parse function passed in, and the random part of a generated `custom_id`
 * by a suffix function passed in.
 */
module AnthropicApi {
  import opened Wrappers
  import opened Interfaces
  import opened Json
  import Text
  import BatchStore
  import Sorting

  const DefaultModel := "claude-3-5-sonnet-20240620"
  const DefaultMaxTokens := 1024
  const NoContent := "No content provided"
  const MessagesEndpoint := "/v1/messages"
  const DefaultWindow := "24h"

  /** `isValidApiKeyFormat`: a non-empty key that starts with `sk-ant-`. */
  function IsValidApiKeyFormat(key: string): (r: bool)
    ensures r <==> |key| >= 7 && key == "sk-ant-" + key[7..]
  {
    key != "" && |key| >= 7 && key[..7] == "sk-ant-"
  }

  /** `_mapStatusToCommon`: Anthropic's `processing_status` onto the common vocabulary. */
  function MapStatusToCommon(raw: string): (r: CommonStatus)
    ensures r == Completed <==> raw == "ended"
    ensures r == InProgress <==> raw in {"in_progress", "canceling"}
    ensures r == Cancelled <==> raw == "canceled"
    ensures r == Pending <==> raw !in {"ended", "in_progress", "canceling", "canceled"}
    ensures r != Failed && r != Expired
  {
    match raw
    case "ended" => Completed
    case "in_progress" => InProgress
    case "canceling" => InProgress
    case "canceled" => Cancelled
    case _ => Pending
  }

  /**
   * Unlike OpenAI's, this normaliser does not fix the common names: only
   * `pending` and `in_progress` map to themselves, so a record whose status
   * is already `completed` or `cancelled` comes back `pending`.
   */
  lemma MapStatusOnCommonNames(c: CommonStatus)
    ensures MapStatusToCommon(Name(c)) == c <==> c == Pending || c == InProgress
    ensures c != InProgress ==> MapStatusToCommon(Name(c)) == Pending
  {
  }

  // ---------------------------------------------------------------------------
  // JSONL translation (`_parseJsonlToAnthropicFormat`)
  // ---------------------------------------------------------------------------

  /** A record already in Message Batches form: `params && params.messages`. */
  predicate IsNative(v: Value) {
    HasTruthyPath(v, "params", "messages")
  }

  /** A record in OpenAI batch form: `body && body.messages`. */
  predicate IsOpenAIShaped(v: Value) {
    HasTruthyPath(v, "body", "messages")
  }

  /** A Message Batches request with the given id, model, token limit and messages. */
  function Request(customId: Value, model: Value, maxTokens: Value, messages: Value): Value {
    Obj(map["custom_id" := customId,
            "params" := Obj(map["model" := model, "max_tokens" := maxTokens, "messages" := messages])])
  }

  /** The single user message of the default structure. */
  function UserMessage(content: Value): Value {
    Obj(map["role" := Str("user"), "content" := content])
  }

  /** `custom_id || 'req-' + <random>`. */
  function CustomIdFor(record: Value, suffix: string): (r: Value)
    ensures Truthy(Member(record, "custom_id")) ==> Some(r) == Member(record, "custom_id")
    ensures !Truthy(Member(record, "custom_id")) ==> r == Str("req-" + suffix)
    ensures Truthy(Some(r))
  {
    OrElse(Member(record, "custom_id"), Str("req-" + suffix))
  }

  /**
   * The request one parsed line becomes. A parsed `null` throws on the first
   * property read and the line is dropped (`None`); a record already in
   * Message Batches form passes through; a record in OpenAI form has its
   * body's messages wrapped with a model and token limit, defaulted; anything
   * else becomes one user message carrying its `content`.
   */
  function TranslateRecord(record: Value, suffix: string): (r: Option<Value>)
    ensures r.None? <==> record.Null?
    ensures IsNative(record) ==> r == Some(record)
    ensures r.Some? ==> IsNative(r.value)
    ensures r.Some? && !IsNative(record) ==>
      && Member(r.value, "custom_id") == Some(CustomIdFor(record, suffix))
      && Truthy(Member(r.value, "custom_id"))
    ensures r.Some? && !IsNative(record) && IsOpenAIShaped(record) ==>
      && Path(r.value, "params", "messages") == Path(record, "body", "messages")
      && Path(r.value, "params", "model") == Some(OrElse(Path(record, "body", "model"), Str(DefaultModel)))
      && Path(r.value, "params", "max_tokens") == Some(OrElse(Path(record, "body", "max_tokens"), Num(DefaultMaxTokens)))
    ensures r.Some? && !IsNative(record) && !IsOpenAIShaped(record) ==>
      && Path(r.value, "params", "messages") == Some(Arr([UserMessage(OrElse(Member(record, "content"), Str(NoContent)))]))
      && Path(r.value, "params", "model") == Some(Str(DefaultModel))
      && Path(r.value, "params", "max_tokens") == Some(Num(DefaultMaxTokens))
  {
    if record.Null? then None
    else if IsNative(record) then Some(record)
    else if IsOpenAIShaped(record) then
      var body := Member(record, "body").value;
      Some(Request(CustomIdFor(record, suffix),
                   OrElse(Member(body, "model"), Str(DefaultModel)),
                   OrElse(Member(body, "max_tokens"), Num(DefaultMaxTokens)),
                   Member(body, "messages").value))
    else
      Some(Request(CustomIdFor(record, suffix), Str(DefaultModel), Num(DefaultMaxTokens),
                   Arr([UserMessage(OrElse(Member(record, "content"), Str(NoContent)))])))
  }

  /** Translating a translated record again changes nothing, whatever suffix is drawn. */
  lemma TranslateIdempotent(record: Value, suffix: string, suffix2: string)
    requires TranslateRecord(record, suffix).Some?
    ensures TranslateRecord(TranslateRecord(record, suffix).value, suffix2) == TranslateRecord(record, suffix)
  {
  }

  /** One line of the file: dropped when it does not parse, otherwise translated. */
  function TranslateLine(line: string, parse: string -> Option<Value>, suffix: string): (r: Option<Value>)
    ensures r.Some? <==> parse(line).Some? && !parse(line).value.Null?
    ensures r.Some? ==> r == TranslateRecord(parse(line).value, suffix) && IsNative(r.value)
  {
    match parse(line)
    case None => None
    case Some(record) => TranslateRecord(record, suffix)
  }

  /** `.filter(line => line.trim())`: the lines that are not blank, in order. */
  function NonBlank(lines: seq<string>): (r: seq<string>)
    ensures |r| <= |lines|
    ensures forall x :: x in r <==> x in lines && !Text.IsBlank(x)
    ensures r == [] <==> forall x :: x in lines ==> Text.IsBlank(x)
    ensures forall x :: multiset(r)[x] == if Text.IsBlank(x) then 0 else multiset(lines)[x]
    ensures (forall x :: x in lines ==> !Text.IsBlank(x)) ==> r == lines
    ensures |lines| == 1 ==> r == if Text.IsBlank(lines[0]) then [] else lines
  {
    if |lines| == 0 then []
    else
      var rest := NonBlank(lines[1..]);
      assert lines == [lines[0]] + lines[1..];
      assert forall x :: x in lines <==> x == lines[0] || x in lines[1..];
      assert multiset(lines) == multiset{lines[0]} + multiset(lines[1..]);
      if Text.IsBlank(lines[0]) then rest else [lines[0]] + rest
  }

  /** Filtering a concatenation filters each part: the kept lines stay in file order. */
  lemma {:induction false} NonBlankAppend(a: seq<string>, b: seq<string>)
    ensures NonBlank(a + b) == NonBlank(a) + NonBlank(b)
    decreases |a|
  {
    if |a| == 0 {
      assert a + b == b;
    } else {
      assert (a + b)[0] == a[0] && (a + b)[1..] == a[1..] + b;
      NonBlankAppend(a[1..], b);
    }
  }

  /** `.filter(req => req !== null)`: the present values, in order. */
  function Present(xs: seq<Option<Value>>): (r: seq<Value>)
    ensures |r| <= |xs|
    ensures forall v :: v in r <==> Some(v) in xs
  {
    if |xs| == 0 then []
    else
      var rest := Present(xs[1..]);
      assert forall o :: o in xs <==> o == xs[0] || o in xs[1..];
      match xs[0]
      case Some(v) => [v] + rest
      case None => rest
  }

  /** Filtering a concatenation filters each part. */
  lemma {:induction false} PresentAppend(a: seq<Option<Value>>, b: seq<Option<Value>>)
    ensures Present(a + b) == Present(a) + Present(b)
    decreases |a|
  {
    if |a| == 0 {
      assert a + b == b;
    } else {
      assert (a + b)[0] == a[0] && (a + b)[1..] == a[1..] + b;
      PresentAppend(a[1..], b);
    }
  }

  /** With nothing missing, filtering keeps every value in place. */
  lemma {:induction false} PresentAllSome(xs: seq<Option<Value>>)
    requires forall i :: 0 <= i < |xs| ==> xs[i].Some?
    ensures |Present(xs)| == |xs|
    ensures forall i :: 0 <= i < |xs| ==> Present(xs)[i] == xs[i].value
    decreases |xs|
  {
    if |xs| > 0 {
      PresentAllSome(xs[1..]);
    }
  }

  /** Each non-blank line translated in place; the `i`-th draws `suffix(i)`. */
  function TranslateAll(lines: seq<string>, parse: string -> Option<Value>, suffix: nat -> string): (r: seq<Option<Value>>)
    ensures |r| == |lines|
    ensures forall i :: 0 <= i < |lines| ==> r[i] == TranslateLine(lines[i], parse, suffix(i))
  {
    seq(|lines|, i requires 0 <= i < |lines| => TranslateLine(lines[i], parse, suffix(i)))
  }

  /** `_parseJsonlToAnthropicFormat`. */
  function ParseJsonlToAnthropicFormat(content: string, parse: string -> Option<Value>, suffix: nat -> string): (r: seq<Value>)
    ensures |r| <= |NonBlank(Text.Split(content))|
    ensures forall v :: v in r ==> IsNative(v)
  {
    Present(TranslateAll(NonBlank(Text.Split(content)), parse, suffix))
  }

  /**
   * Every request comes from some non-blank line, and every non-blank line
   * that parses to something other than `null` yields a request.
   */
  lemma ParseJsonlSoundComplete(content: string, parse: string -> Option<Value>, suffix: nat -> string)
    ensures var lines := NonBlank(Text.Split(content));
      forall v :: v in ParseJsonlToAnthropicFormat(content, parse, suffix) <==>
        exists i :: 0 <= i < |lines| && TranslateLine(lines[i], parse, suffix(i)) == Some(v)
  {
    var lines := NonBlank(Text.Split(content));
    var t := TranslateAll(lines, parse, suffix);
    forall v ensures v in Present(t) <==> exists i :: 0 <= i < |lines| && TranslateLine(lines[i], parse, suffix(i)) == Some(v) {
      if v in Present(t) {
        var i :| 0 <= i < |t| && t[i] == Some(v);
        assert TranslateLine(lines[i], parse, suffix(i)) == Some(v);
      }
      if exists i :: 0 <= i < |lines| && TranslateLine(lines[i], parse, suffix(i)) == Some(v) {
        var i :| 0 <= i < |lines| && TranslateLine(lines[i], parse, suffix(i)) == Some(v);
        assert t[i] == Some(v);
      }
    }
  }

  /** Blank lines are never handed to the parser: parsers that agree on the other lines give the same requests. */
  lemma BlankLinesNotParsed(content: string, parse1: string -> Option<Value>, parse2: string -> Option<Value>,
                            suffix: nat -> string)
    requires forall line :: !Text.IsBlank(line) ==> parse1(line) == parse2(line)
    ensures ParseJsonlToAnthropicFormat(content, parse1, suffix) == ParseJsonlToAnthropicFormat(content, parse2, suffix)
  {
    var lines := NonBlank(Text.Split(content));
    forall i | 0 <= i < |lines| ensures parse1(lines[i]) == parse2(lines[i]) {
      assert lines[i] in lines;
    }
    assert TranslateAll(lines, parse1, suffix) == TranslateAll(lines, parse2, suffix);
  }

  /** When every non-blank line parses to a non-null record, there is one request per line, in order. */
  lemma ParseJsonlOnePerLine(content: string, parse: string -> Option<Value>, suffix: nat -> string)
    requires var lines := NonBlank(Text.Split(content));
      forall i :: 0 <= i < |lines| ==> parse(lines[i]).Some? && !parse(lines[i]).value.Null?
    ensures var lines := NonBlank(Text.Split(content));
      && |ParseJsonlToAnthropicFormat(content, parse, suffix)| == |lines|
      && forall i :: 0 <= i < |lines| ==>
           Some(ParseJsonlToAnthropicFormat(content, parse, suffix)[i]) == TranslateRecord(parse(lines[i]).value, suffix(i))
  {
    TranslateAllParsed(NonBlank(Text.Split(content)), parse, suffix);
  }

  /** Lines that all parse to non-null records translate one for one. */
  lemma TranslateAllParsed(lines: seq<string>, parse: string -> Option<Value>, suffix: nat -> string)
    requires forall i :: 0 <= i < |lines| ==> parse(lines[i]).Some? && !parse(lines[i]).value.Null?
    ensures |Present(TranslateAll(lines, parse, suffix))| == |lines|
    ensures forall i :: 0 <= i < |lines| ==>
      Some(Present(TranslateAll(lines, parse, suffix))[i]) == TranslateRecord(parse(lines[i]).value, suffix(i))
  {
    var t := TranslateAll(lines, parse, suffix);
    forall i | 0 <= i < |lines| ensures t[i].Some? && t[i] == TranslateRecord(parse(lines[i]).value, suffix(i)) {
      assert t[i] == TranslateLine(lines[i], parse, suffix(i));
    }
    PresentAllSome(t);
  }

  /** A file of blank lines yields no requests. */
  lemma BlankFileNoRequests(content: string, parse: string -> Option<Value>, suffix: nat -> string)
    requires forall i :: 0 <= i < |content| ==> Text.IsSpace(content[i])
    ensures ParseJsonlToAnthropicFormat(content, parse, suffix) == []
  {
    var pieces := Text.Split(content);
    Text.JoinSplit(content);
    forall x | x in pieces ensures Text.IsBlank(x) {
      JoinedPieceBlank(pieces, x);
    }
  }

  /** Every character of a piece occurs in the join of the pieces. */
  lemma {:induction false} JoinedPieceBlank(pieces: seq<string>, x: string)
    requires x in pieces
    requires forall i :: 0 <= i < |Text.Join(pieces)| ==> Text.IsSpace(Text.Join(pieces)[i])
    ensures Text.IsBlank(x)
    decreases |pieces|
  {
    var j := Text.Join(pieces);
    if |pieces| == 1 {
      assert j == pieces[0];
    } else {
      assert j == pieces[0] + "\n" + Text.Join(pieces[1..]);
      if x == pieces[0] {
        forall k | 0 <= k < |x| ensures Text.IsSpace(x[k]) {
          assert j[k] == x[k];
        }
      } else {
        var tail := Text.Join(pieces[1..]);
        forall k | 0 <= k < |tail| ensures Text.IsSpace(tail[k]) {
          assert j[|pieces[0]| + 1 + k] == tail[k];
        }
        JoinedPieceBlank(pieces[1..], x);
      }
    }
  }

  /** A line that does not parse (or parses to `null`) is dropped; the requests around it keep their order. */
  lemma UnparsableLineDropped(lines: seq<string>, parse: string -> Option<Value>, suffix: nat -> string, k: int)
    requires 0 <= k < |lines|
    requires parse(lines[k]).None? || parse(lines[k]).value.Null?
    ensures var t := TranslateAll(lines, parse, suffix);
      Present(t) == Present(t[..k]) + Present(t[k + 1..])
  {
    var t := TranslateAll(lines, parse, suffix);
    assert t == t[..k] + ([t[k]] + t[k + 1..]);
    PresentAppend(t[..k], [t[k]] + t[k + 1..]);
    PresentAppend([t[k]], t[k + 1..]);
    assert Present([t[k]]) == [];
  }

  /** Three lines whose middle one is not JSON give two requests, from the first and the third. */
  lemma MiddleLineInvalid(lines: seq<string>, parse: string -> Option<Value>, suffix: nat -> string)
    requires |lines| == 3
    requires parse(lines[0]).Some? && !parse(lines[0]).value.Null?
    requires parse(lines[1]).None?
    requires parse(lines[2]).Some? && !parse(lines[2]).value.Null?
    ensures Present(TranslateAll(lines, parse, suffix))
         == [TranslateRecord(parse(lines[0]).value, suffix(0)).value,
             TranslateRecord(parse(lines[2]).value, suffix(2)).value]
  {
    var t := TranslateAll(lines, parse, suffix);
    assert t[0] == TranslateRecord(parse(lines[0]).value, suffix(0)) && t[0].Some?;
    assert t[2] == TranslateRecord(parse(lines[2]).value, suffix(2)) && t[2].Some?;
    UnparsableLineDropped(lines, parse, suffix, 1);
    assert t[..1] == [t[0]] && t[2..] == [t[2]];
    assert Present([t[0]]) == [t[0].value] + Present([t[0]][1..]);
    assert Present([t[2]]) == [t[2].value] + Present([t[2]][1..]);
  }

  /**
   * `createBatchJob`: the requests it submits. Without a key it fails before
   * reading the file; a file the reader cannot deliver, or one that reads as
   * the empty string, is rejected. `read` is the reader's outcome.
   */
  function CreateBatchJob(key: Option<string>, read: Option<string>,
                          parse: string -> Option<Value>, suffix: nat -> string): (r: Result<seq<Value>, Error>)
    ensures !Given(key) ==> r == Err(AuthMissing)
    ensures Given(key) && (read.None? || read.value == "") ==> r == Err(ReadFailed)
    ensures r.Ok? <==> Given(key) && read.Some? && read.value != ""
    ensures r.Ok? ==> r.value == ParseJsonlToAnthropicFormat(read.value, parse, suffix)
  {
    if !Given(key) then Err(AuthMissing)
    else
      var content :- ReadFileContent(read);
      Ok(ParseJsonlToAnthropicFormat(content, parse, suffix))
  }

  /** `_readFileContent`: the text read, unless the reader failed or produced nothing. */
  function ReadFileContent(read: Option<string>): (r: Result<string, Error>)
    ensures r.Ok? <==> read.Some? && read.value != ""
    ensures r.Ok? ==> r.value == read.value
    ensures r.Err? ==> r.error == ReadFailed
  {
    match read
    case Some(text) => if text != "" then Ok(text) else Err(ReadFailed)
    case None => Err(ReadFailed)
  }

  // ---------------------------------------------------------------------------
  // Batch status and results
  // ---------------------------------------------------------------------------

  /** The five sub-status counters of an Anthropic batch. */
  const CounterKeys: set<string> := {"processing", "succeeded", "errored", "canceled", "expired"}

  /**
   * `total_count`: the sum of the five counters. A missing counter (or a
   * missing `request_counts`) makes the JavaScript sum `NaN`, modelled as `None`.
   */
  function TotalCount(counts: Option<Counts>): (r: Option<int>)
    ensures r.Some? <==> counts.Some? && CounterKeys <= counts.value.Keys
    ensures r.Some? ==> r.value == counts.value["processing"] + counts.value["succeeded"] + counts.value["errored"]
                                 + counts.value["canceled"] + counts.value["expired"]
  {
    if counts.Some? && CounterKeys <= counts.value.Keys then
      var c := counts.value;
      Some(c["processing"] + c["succeeded"] + c["errored"] + c["canceled"] + c["expired"])
    else None
  }

  /** With every counter present and none negative, the total bounds each counter and drops none. */
  lemma TotalCountCoversCounters(counts: Counts)
    requires CounterKeys <= counts.Keys
    requires forall k :: k in CounterKeys ==> counts[k] >= 0
    ensures TotalCount(Some(counts)).Some?
    ensures forall k :: k in CounterKeys ==> counts[k] <= TotalCount(Some(counts)).value
    ensures TotalCount(Some(counts)).value == 0 <==> forall k :: k in CounterKeys ==> counts[k] == 0
  {
  }

  /** One succeeded and two errored requests, nothing else: a total of three. */
  lemma TotalCountExample()
    ensures TotalCount(Some(map["processing" := 0, "succeeded" := 1, "errored" := 2, "canceled" := 0, "expired" := 0])) == Some(3)
    ensures TotalCount(Some(map["succeeded" := 1, "errored" := 2])).None?
  {
    var partial := map["succeeded" := 1, "errored" := 2];
    assert "processing" !in partial.Keys;
  }

  /** The body of `GET /v1/messages/batches/{id}` that the client reads. Times are instants in epoch milliseconds. */
  datatype BatchResponse = BatchResponse(
    id: string,
    processingStatus: string,
    createdAt: Option<int>,
    endedAt: Option<int>,
    expiresAt: Option<int>,
    requestCounts: Option<Counts>,
    resultsUrl: Option<string>)

  /** The common status built from a response. */
  function StatusFromResponse(data: BatchResponse): (r: BatchStatus)
    ensures r.id == data.id && IsCommonName(r.status)
    ensures FromName(r.status) == Some(MapStatusToCommon(data.processingStatus))
    ensures r.createdAt == data.createdAt && r.completedAt == data.endedAt && r.eta == data.expiresAt
    ensures r.inputFileId.None? && r.outputFileId.None?
    ensures r.requestCounts == data.requestCounts && r.totalCount == TotalCount(data.requestCounts)
    ensures r.resultsUrl == data.resultsUrl
    ensures r.endpoint == MessagesEndpoint && r.completionWindow == DefaultWindow
  {
    NameRoundTrip(MapStatusToCommon(data.processingStatus));
    BatchStatus(
      data.id,
      Name(MapStatusToCommon(data.processingStatus)),
      data.createdAt,
      data.endedAt,
      data.expiresAt,
      None,
      None,
      data.requestCounts,
      TotalCount(data.requestCounts),
      data.resultsUrl,
      MessagesEndpoint,
      DefaultWindow)
  }

  /** `getBatchStatus`: no request without a key; a failed request's error is passed on. */
  function GetBatchStatus(key: Option<string>, response: Result<BatchResponse, Error>): (r: Result<BatchStatus, Error>)
    ensures !Given(key) ==> r == Err(AuthMissing)
    ensures Given(key) && response.Err? ==> r == Err(response.error)
    ensures Given(key) && response.Ok? ==> r == Ok(StatusFromResponse(response.value))
    ensures r.Ok? ==> r.value.requestCounts == response.value.requestCounts
    ensures r.Ok? ==> r.value.totalCount == TotalCount(response.value.requestCounts)
  {
    if !Given(key) then Err(AuthMissing)
    else
      var data :- response;
      Ok(StatusFromResponse(data))
  }

  /**
   * `downloadFileContent`: checks the key, fetches the batch status, and only
   * downloads when that status carries a results URL. `response` is the
   * status request's outcome, `results` the download's.
   */
  function DownloadFileContent(key: Option<string>, response: Result<BatchResponse, Error>,
                               results: Result<string, Error>): (r: Result<string, Error>)
    ensures !Given(key) ==> r == Err(AuthMissing)
    ensures Given(key) && response.Err? ==> r == Err(response.error)
    ensures Given(key) && response.Ok? && !Given(response.value.resultsUrl) ==> r == Err(NotReady)
    ensures Given(key) && response.Ok? && Given(response.value.resultsUrl) ==> r == results
  {
    if !Given(key) then Err(AuthMissing)
    else
      var status :- GetBatchStatus(key, response);
      if !Given(status.resultsUrl) then Err(NotReady) else results
  }

  /** The download is never consulted for a batch without results; which URL a batch has does not matter. */
  lemma DownloadNeedsResultsUrl(key: Option<string>, response: Result<BatchResponse, Error>,
                                results1: Result<string, Error>, results2: Result<string, Error>)
    requires response.Err? || !Given(response.value.resultsUrl)
    ensures DownloadFileContent(key, response, results1) == DownloadFileContent(key, response, results2)
    ensures DownloadFileContent(key, response, results1).Err?
  {
  }

  // ---------------------------------------------------------------------------
  // Batch store
  // ---------------------------------------------------------------------------

  /** `saveBatchInfo` on the `anthropic_batch_jobs` entry. */
  function SaveBatchInfo(slot: BatchStore.Slot, p: BatchStore.Partial, now: int): (r: BatchStore.Slot)
    ensures BatchStore.HasId(p) && p.id.value !in BatchStore.Ids(BatchStore.Load(slot)) && !Given(p.endpoint) ==>
      exists j :: j in BatchStore.Load(r) && IdOf(j) == p.id.value && j.info.endpoint == MessagesEndpoint
  {
    var r := BatchStore.SaveBatchInfo(slot, p, now, MessagesEndpoint);
    if BatchStore.HasId(p) && BatchStore.FindIndex(BatchStore.Load(slot), p.id.value).None? then
      assert BatchStore.NewJob(p, now, MessagesEndpoint) in multiset(r.jobs);
      r
    else
      r
  }

  /** `getSavedBatchJobs` on the `anthropic_batch_jobs` entry. */
  function GetSavedBatchJobs(slot: BatchStore.Slot): (r: seq<SavedBatchJob>)
    ensures slot.Stored? ==> r == slot.jobs
    ensures !slot.Stored? ==> r == []
  {
    BatchStore.Load(slot)
  }

  /**
   * One batch handed to `updateBatchesInStorage`, before normalisation;
   * absent fields are `None`. Instants are epoch milliseconds.
   */
  datatype Snapshot = Snapshot(
    id: string,
    processingStatus: Option<string>,
    status: Option<string>,
    createdAt: int,
    endedAt: Option<int>,
    completedAt: Option<int>,
    expiresAt: Option<int>,
    eta: Option<int>,
    resultsUrl: Option<string>)

  /** The status a snapshot is normalised to: its `processing_status`, else its `status`. */
  function SnapshotStatus(s: Snapshot): (r: CommonStatus)
    ensures Given(s.processingStatus) ==> r == MapStatusToCommon(s.processingStatus.value)
    ensures !Given(s.processingStatus) ==> r == MapStatusToCommon(s.status.GetOr(""))
  {
    MapStatusToCommon(StringOr(s.processingStatus, s.status.GetOr("")))
  }

  /** The record `updateBatchesInStorage` stores for one snapshot. */
  function Normalize(s: Snapshot, now: int): (r: SavedBatchJob)
    ensures IdOf(r) == s.id && IsCommonName(r.info.status)
    ensures FromName(r.info.status) == Some(SnapshotStatus(s))
    ensures r.info.status != "failed" && r.info.status != "expired"
    ensures r.date == s.createdAt && r.info.createdAt == Some(s.createdAt) && r.lastChecked == now
    ensures r.info.completedAt == s.endedAt.Or(s.completedAt)
    ensures r.info.eta == s.expiresAt.Or(s.eta)
    ensures r.info.inputFileId.None? && r.info.outputFileId.None?
    ensures r.info.requestCounts.None? && r.info.totalCount.None?
    ensures r.info.resultsUrl == s.resultsUrl
    ensures r.info.endpoint == MessagesEndpoint && r.info.completionWindow == DefaultWindow
  {
    NameRoundTrip(SnapshotStatus(s));
    SavedBatchJob(
      BatchStatus(
        s.id,
        Name(SnapshotStatus(s)),
        Some(s.createdAt),
        s.endedAt.Or(s.completedAt),
        s.expiresAt.Or(s.eta),
        None,
        None,
        None,
        None,
        s.resultsUrl,
        MessagesEndpoint,
        DefaultWindow),
      s.createdAt,
      now)
  }

  /**
   * A snapshot carrying only an already normalised `status` of `completed`
   * (no `processing_status`) is stored as `pending`: the merge maps the
   * common name with Anthropic's own vocabulary.
   */
  lemma CompletedStatusOnlySnapshot(s: Snapshot, now: int)
    requires !Given(s.processingStatus) && s.status == Some("completed")
    ensures Normalize(s, now).info.status == "pending"
  {
  }

  /** Normalises every snapshot, in order. */
  function NormalizeAll(snaps: seq<Snapshot>, now: int): (r: seq<SavedBatchJob>)
    ensures |r| == |snaps|
    ensures forall i :: 0 <= i < |snaps| ==> r[i] == Normalize(snaps[i], now)
  {
    seq(|snaps|, i requires 0 <= i < |snaps| => Normalize(snaps[i], now))
  }

  /** The ids of the snapshots, in order. */
  function SnapshotIds(snaps: seq<Snapshot>): (ids: seq<string>)
    ensures |ids| == |snaps| && forall i :: 0 <= i < |snaps| ==> ids[i] == snaps[i].id
  {
    seq(|snaps|, i requires 0 <= i < |snaps| => snaps[i].id)
  }

  /**
   * `updateBatchesInStorage` on the `anthropic_batch_jobs` entry: a no-op for
   * no snapshots; otherwise every snapshot id ends up stored exactly once, and
   * the entry is sorted newest first. Which record each id keeps is stated by
   * the lemmas below.
   */
  function UpdateBatchesInStorage(slot: BatchStore.Slot, snaps: seq<Snapshot>, now: int): (r: BatchStore.Slot)
    ensures |snaps| == 0 ==> r == slot
    ensures |snaps| > 0 ==> r.Stored? && Sorting.SortedBy(r.jobs, BatchStore.NewestFirst)
    ensures |snaps| > 0 ==> BatchStore.UniqueIds(r.jobs)
    ensures |snaps| > 0 ==> forall i :: 0 <= i < |snaps| ==> snaps[i].id in BatchStore.Ids(r.jobs)
  {
    var incoming := NormalizeAll(snaps, now);
    var r := BatchStore.UpdateBatches(slot, incoming);
    if |snaps| > 0 then
      BatchStore.ListedIdsStored(SnapshotIds(snaps), incoming, r.jobs);
      r
    else
      r
  }

  /** The last snapshot of each id is stored, normalised. */
  lemma LastSnapshotWins(slot: BatchStore.Slot, snaps: seq<Snapshot>, now: int, i: int)
    requires 0 <= i < |snaps|
    requires forall m :: i < m < |snaps| ==> snaps[m].id != snaps[i].id
    ensures Normalize(snaps[i], now) in UpdateBatchesInStorage(slot, snaps, now).jobs
  {
    var incoming := NormalizeAll(snaps, now);
    forall m | i < m < |incoming| ensures IdOf(incoming[m]) != IdOf(incoming[i]) {
      assert IdOf(incoming[m]) == snaps[m].id && IdOf(incoming[i]) == snaps[i].id;
    }
    BatchStore.LastIncomingStored(slot, incoming, i);
  }

  /** A stored record with a snapshot's id is a normalised snapshot: dated by its creation, checked now, without counts. */
  lemma UpdatedRecordsNormalised(slot: BatchStore.Slot, snaps: seq<Snapshot>, now: int, j: SavedBatchJob, i: int)
    ensures (0 <= i < |snaps| && snaps[i].id == IdOf(j) && j in UpdateBatchesInStorage(slot, snaps, now).jobs) ==>
        && (exists k :: 0 <= k < |snaps| && j == Normalize(snaps[k], now))
        && IsCommonName(j.info.status) && j.lastChecked == now
        && j.info.requestCounts.None? && j.info.endpoint == MessagesEndpoint
  {
    if 0 <= i < |snaps| && snaps[i].id == IdOf(j) && j in UpdateBatchesInStorage(slot, snaps, now).jobs {
      var incoming := NormalizeAll(snaps, now);
      assert j in incoming by {
        assert UpdateBatchesInStorage(slot, snaps, now) == BatchStore.UpdateBatches(slot, incoming);
        BatchStore.StoredWithIncomingIdIsIncoming(slot, incoming, j, i);
      }
      NormalizedMember(snaps, now, j);
    }
  }

  /** A record among the normalised snapshots is one of them, normalised. */
  lemma NormalizedMember(snaps: seq<Snapshot>, now: int, j: SavedBatchJob)
    requires j in NormalizeAll(snaps, now)
    ensures exists k :: 0 <= k < |snaps| && j == Normalize(snaps[k], now)
    ensures IsCommonName(j.info.status) && j.lastChecked == now
    ensures j.info.requestCounts.None? && j.info.endpoint == MessagesEndpoint
  {
    var incoming := NormalizeAll(snaps, now);
    var k :| 0 <= k < |incoming| && incoming[k] == j;
    assert j == Normalize(snaps[k], now);
  }

  /** A stored record whose id no snapshot carries stays as it was. */
  lemma UntouchedRecordsKept(slot: BatchStore.Slot, snaps: seq<Snapshot>, now: int, j: SavedBatchJob)
    requires |snaps| > 0
    requires j in BatchStore.Load(slot) && BatchStore.UniqueIds(BatchStore.Load(slot))
    requires forall i :: 0 <= i < |snaps| ==> snaps[i].id != IdOf(j)
    ensures j in UpdateBatchesInStorage(slot, snaps, now).jobs
  {
    BatchStore.UnlistedKept(slot, SnapshotIds(snaps), NormalizeAll(snaps, now));
  }

  /** Applying the same snapshots twice stores what applying them once does. */
  lemma UpdateTwice(slot: BatchStore.Slot, snaps: seq<Snapshot>, now: int)
    ensures UpdateBatchesInStorage(UpdateBatchesInStorage(slot, snaps, now), snaps, now)
         == UpdateBatchesInStorage(slot, snaps, now)
  {
    BatchStore.UpdateBatchesIdempotent(slot, NormalizeAll(snaps, now));
  }

  /**
   * Applying the same snapshots again at a later instant only restamps:
   * every record keeps its place, its fields and its date (a snapshot is
   * dated by its creation time); the records the snapshots name are checked
   * at the later instant and the others keep their check time.
   */
  lemma UpdateAgainLater(slot: BatchStore.Slot, snaps: seq<Snapshot>, now1: int, now2: int)
    ensures BatchStore.RecheckedAt(BatchStore.Load(UpdateBatchesInStorage(slot, snaps, now1)),
                                   BatchStore.Load(UpdateBatchesInStorage(UpdateBatchesInStorage(slot, snaps, now1), snaps, now2)),
                                   (set k | k in SnapshotIds(snaps)), now2)
  {
    var inc1 := NormalizeAll(snaps, now1);
    RenormalizedRechecked(snaps, now1, now2);
    BatchStore.UpdateBatchesRechecked(slot, inc1, NormalizeAll(snaps, now2), now2);
    StorageIsUpdate(slot, snaps, now1);
    StorageIsUpdate(BatchStore.UpdateBatches(slot, inc1), snaps, now2);
  }

  /** What `BatchStore.UpdateBatchesRechecked` needs of the snapshots normalised at two instants. */
  lemma RenormalizedRechecked(snaps: seq<Snapshot>, now1: int, now2: int)
    ensures BatchStore.RestampedAll(NormalizeAll(snaps, now1), NormalizeAll(snaps, now2))
    ensures forall j :: j in NormalizeAll(snaps, now2) ==> j.lastChecked == now2
    ensures BatchStore.Ids(NormalizeAll(snaps, now2)) == (set k | k in SnapshotIds(snaps))
  {
    var inc2 := NormalizeAll(snaps, now2);
    NormalizeRestamped(snaps, now1, now2);
    forall j | j in inc2 ensures j.lastChecked == now2 {
      NormalizedMember(snaps, now2, j);
    }
    NormalizedIds(snaps, now2);
  }

  /** The stored entry after an update is the store's merge of the normalised snapshots. */
  lemma StorageIsUpdate(slot: BatchStore.Slot, snaps: seq<Snapshot>, now: int)
    ensures UpdateBatchesInStorage(slot, snaps, now) == BatchStore.UpdateBatches(slot, NormalizeAll(snaps, now))
  {
  }

  /** Normalising the same snapshots at two instants gives records that differ only in their check time. */
  lemma NormalizeRestamped(snaps: seq<Snapshot>, now1: int, now2: int)
    ensures BatchStore.RestampedAll(NormalizeAll(snaps, now1), NormalizeAll(snaps, now2))
  {
    var inc1 := NormalizeAll(snaps, now1);
    var inc2 := NormalizeAll(snaps, now2);
    forall i | 0 <= i < |inc1| ensures BatchStore.Restamped(inc1[i], inc2[i]) {
      assert inc1[i] == Normalize(snaps[i], now1) && inc2[i] == Normalize(snaps[i], now2);
    }
  }

  /** The ids of the normalised snapshots are the snapshots' ids. */
  lemma NormalizedIds(snaps: seq<Snapshot>, now: int)
    ensures forall k :: k in BatchStore.Ids(NormalizeAll(snaps, now)) <==> k in SnapshotIds(snaps)
  {
    var inc := NormalizeAll(snaps, now);
    var ids := SnapshotIds(snaps);
    forall k | k in BatchStore.Ids(inc) ensures k in ids {
      var j :| j in inc && IdOf(j) == k;
      var m :| 0 <= m < |inc| && inc[m] == j;
      assert ids[m] == k;
    }
    forall k | k in ids ensures k in BatchStore.Ids(inc) {
      var m :| 0 <= m < |ids| && ids[m] == k;
      assert inc[m] in inc && IdOf(inc[m]) == k;
    }
  }
}
