# batch-api-ui services, modelled in Dafny

This project models the provider layer of batch-api-ui. That layer is a browser
front end for the OpenAI Batch API and Anthropic's Message Batches API. Each
provider client does five things:

- it checks the shape of an API key;
- it maps the vendor's batch status onto one common status vocabulary;
- it turns a vendor batch response into the common `BatchStatus` record;
- it keeps a list of `SavedBatchJob` records in browser storage;
- it reconciles that list with fresh snapshots of the batches.

The Anthropic client also translates an uploaded JSONL file into Message
Batches requests. Beside the clients sit two more pieces: a model catalog with
a 24-hour cache, and a factory that picks a client by provider name.

Everything is modelled as immutable data and pure functions. The effects become
parameters:

- A storage entry is a value, `BatchStore.Slot` or `BaseModels.CacheSlot`. It is passed in and the new entry is returned.
- The clock is an `int` of epoch milliseconds, named `now`.
- The outcome of an HTTP request or of the file reader is a `Result` passed in.
- `JSON.parse` is a function `string -> Option<Json.Value>`. `None` means the text does not parse.
- The random part of a generated `custom_id` is a function from the line's position to a string.

The files are:

- `wrappers.dfy`: `Option` and `Result`.
- `sorting.dfy`: a stable insertion sort standing for `Array.prototype.sort` with a comparator.
- `text.dfy`: `split('\n')`, `trim()` blankness, `includes` and code-point order.
- `json.dfy`: JSON values, JavaScript truthiness and `||`.
- `interfaces.dfy`: the common status and the `BatchStatus` and `SavedBatchJob` records.
- `batch_store.dfy`: `saveBatchInfo`, `getSavedBatchJobs` and the id-keyed merge of `updateBatchesInStorage`. The two clients implement these the same way, apart from their defaults.
- `openai_api.dfy` and `anthropic_api.dfy`: the two clients.
- `models_cache.dfy` and `openai_models.dfy`: the model catalog cache and the OpenAI catalog.
- `api_factory.dfy`: the provider selector.

## Model

| member | source | states |
|---|---|---|
| `Interfaces.FromName` | src/services/OpenaiApiService.ts:187-207 | reading a stored status back yields a common status only for one of the six names, and that status's name is the text read |
| `Interfaces.NameRoundTrip` | src/services/OpenaiApiService.ts:187-207 | every common status is read back as itself, so the six names are distinct |
| `Interfaces.CountOf` | src/services/OpenaiApiService.ts:162-167 | `counts?.key \|\| 0`: an absent map or counter reads as zero, a present one as its value |
| `BatchStore.Load` | src/services/OpenaiApiService.ts:356-366 | an absent or unparseable storage entry reads as no batches; a stored list is returned as is |
| `OpenAIApi.GetSavedBatchJobs` | src/services/OpenaiApiService.ts:356-366 | an absent or unparseable `openai_batch_jobs` entry reads as no batches; a stored list is returned as is |
| `AnthropicApi.GetSavedBatchJobs` | src/services/AnthropicApiService.ts:379-389 | an absent or unparseable `anthropic_batch_jobs` entry reads as no batches; a stored list is returned as is |
| `BatchStore.SortByDate` | src/services/OpenaiApiService.ts:347 | the result is sorted newest first and is a permutation of the input; it has the same ids and keeps distinct ids distinct |
| `BatchStore.FindIndex` | src/services/OpenaiApiService.ts:320 | `findIndex` by id gives the first position holding the id, or nothing exactly when no record has that id |
| `BatchStore.Overlay` | src/services/OpenaiApiService.ts:322-326 | the `{...old, ...data, lastChecked}` spread: every supplied field wins, every omitted field keeps its old value, and the check time is now |
| `BatchStore.NewJob` | src/services/OpenaiApiService.ts:328-344 | a new record carries each truthy supplied field and otherwise the defaults: `pending`, created now, null times and file ids, `{}` counts, total 0, the provider's endpoint, `24h`, dated now |
| `BatchStore.SaveBatchInfo` | src/services/OpenaiApiService.ts:304-350 | without an id nothing changes; otherwise the entry is sorted newest first, gains the id and keeps ids distinct; an existing id swaps exactly that record for its overlay at the same length; a new id adds exactly one new record |
| `BatchStore.SaveThenLoad` | src/services/OpenaiApiService.ts:320-345 | on a store with distinct ids, the one record read back under the saved id is stamped now; after an update it carries every supplied field, after an insert every truthy supplied field plus defaults |
| `BatchStore.SaveTwice` | src/services/OpenaiApiService.ts:304-350 | on a store with distinct ids, saving the same status twice leaves exactly one record with that id, holding that status and the later check time |
| `BatchStore.PutById` | src/services/OpenaiApiService.ts:378 | `map[id] = record` on an insertion-ordered object: the record is present, it replaces the first holder of its id in that position, with every other position unchanged, or, for a new id, is appended at the end, ids stay distinct, other records are kept and nothing else appears |
| `BatchStore.PutAll` | src/services/OpenaiApiService.ts:382-414 | repeated assignment adds exactly the new ids, keeps ids distinct, keeps the records of untouched ids, and introduces nothing not given |
| `BatchStore.PutAllLastWins` | src/services/OpenaiApiService.ts:382-414 | after assigning a list, the record held for any of its ids is the last one in the list with that id |
| `BatchStore.Merged` | src/services/OpenaiApiService.ts:377-417 | the reduce, the loop and `Object.values` give distinct ids, the union of the stored and incoming ids, and only stored or incoming records |
| `BatchStore.MergedContents` | src/services/OpenaiApiService.ts:377-417 | the last incoming record of each id is kept, and so is the last stored record of each id that is not incoming |
| `BatchStore.MergedOrigins` | src/services/OpenaiApiService.ts:377-417 | a merged record with an incoming id is an incoming record; any other merged record is a stored one |
| `BatchStore.UpdateBatches` | src/services/OpenaiApiService.ts:372-422 | empty input leaves the entry untouched; otherwise the entry is sorted newest first with distinct ids, holds the union of the ids, the last incoming record per id, and the untouched stored records |
| `BatchStore.UpdateBatchesIdempotent` | src/services/OpenaiApiService.ts:372-422 | merging the same normalised batches a second time changes nothing |
| `BatchStore.StoredWithIncomingIdIsIncoming` | src/services/OpenaiApiService.ts:382-414 | a merged record sharing an id with some incoming record is itself one of the incoming records |
| `BatchStore.LastIncomingStored` | src/services/OpenaiApiService.ts:382-414 | an incoming record that no later incoming record shares an id with ends up in the merged entry |
| `BatchStore.UpdateBatchesRestamped` | src/services/OpenaiApiService.ts:372-422 | merging, into the result of a merge, copies of the same batches that differ only in check time keeps every record in place with its fields and date; the records those batches name become their last copy, the others are unchanged |
| `BatchStore.UpdateBatchesRechecked` | src/services/OpenaiApiService.ts:372-422 | the same, for copies all checked at one instant: the named records carry that instant and the others keep their check time |
| `BatchStore.UpdateSingle` | src/services/OpenaiApiService.ts:372-422 | merging one batch into an entry that is empty or holds one record with its id leaves exactly that batch |
| `OpenAIApi.IsValidApiKeyFormat` | src/services/OpenaiApiService.ts:49-51 | a key is accepted exactly when it is non-empty and starts with `sk-` |
| `OpenAIApi.MapStatusToCommon` | src/services/OpenaiApiService.ts:187-207 | for each common status, the exact set of OpenAI statuses that map to it; `validating` and unknown text give `pending` |
| `OpenAIApi.MapStatusFixesCommonNames` | src/services/OpenaiApiService.ts:187-207 | every common status name maps to itself |
| `OpenAIApi.MapStatusIdempotent` | src/services/OpenaiApiService.ts:187-207 | normalising an already normalised status changes nothing |
| `OpenAIApi.TruthyUnix` | src/services/OpenaiApiService.ts:158-159 | a Unix time of 0 or an absent one becomes null; any other becomes that many seconds in milliseconds |
| `OpenAIApi.RemapCounts` | src/services/OpenaiApiService.ts:162-166 | the counts hold exactly `succeeded`, `errored` and `total`, read from OpenAI's `completed`, `failed` and `total` with zero for absent ones |
| `OpenAIApi.StatusFromResponse` | src/services/OpenaiApiService.ts:154-170 | the common record keeps the id, file ids, endpoint and window; holds a common status name for the mapped status; converts creation to milliseconds; nulls a falsy end or expiry time and converts a present one to milliseconds; carries the remapped counts and sets `total_count` to the remapped total |
| `OpenAIApi.GetBatchStatus` | src/services/OpenaiApiService.ts:133-171 | without a key it fails before any request; a failed request's error propagates; a response yields exactly the record `StatusFromResponse` builds, so its counts are remapped and its total is the response's `total` or 0 |
| `OpenAIApi.CreateBatchJob` | src/services/OpenaiApiService.ts:92-126 | without a key it fails; a failed upload's error propagates; it submits exactly when there is a key and either a file id or a successful upload; the body carries the given file id or the uploaded one, and the endpoint and window given or `/v1/chat/completions` and `24h` |
| `OpenAIApi.FileIdSkipsUpload` | src/services/OpenaiApiService.ts:95-99 | given a file id, the upload's outcome makes no difference, and with a key the submission goes ahead |
| `OpenAIApi.SaveBatchInfo` | src/services/OpenaiApiService.ts:338 | a new id saved without an endpoint is stored with `/v1/chat/completions` |
| `OpenAIApi.TruthyStamp` | src/services/OpenaiApiService.ts:389-398 | a time that is absent or the number 0 becomes null; any other stamp is kept, as milliseconds: seconds are converted and an instant is kept as is |
| `OpenAIApi.Normalize` | src/services/OpenaiApiService.ts:383-413 | the stored record keeps the snapshot's id, file ids and results URL; its status is the mapped status; completion and expiry are the truthy stamps of `completed_at` and `expires_at`; a creation stamp dates it, and without one it is dated now with no creation time; counts are remapped; endpoint and window default; it is checked now |
| `OpenAIApi.UpdateBatchesInStorage` | src/services/OpenaiApiService.ts:372-422 | no snapshots: no change; otherwise the entry is sorted newest first, has distinct ids and holds every snapshot's id |
| `OpenAIApi.LastSnapshotWins` | src/services/OpenaiApiService.ts:382-415 | the last snapshot of each id is stored, normalised |
| `OpenAIApi.UpdatedRecordsNormalised` | src/services/OpenaiApiService.ts:383-413 | a stored record with a snapshot's id is some snapshot normalised: it has a common status and is checked now |
| `OpenAIApi.NormalizedMember` | src/services/OpenaiApiService.ts:382-414 | a record among the normalised snapshots is one of them, with a common status and checked now |
| `OpenAIApi.UntouchedRecordsKept` | src/services/OpenaiApiService.ts:377-380 | on a store with distinct ids, a stored record whose id no snapshot carries stays unchanged |
| `OpenAIApi.UpdateTwice` | src/services/OpenaiApiService.ts:372-422 | applying the same snapshots twice at the same instant stores what applying them once does (for two instants see `UpdateAgainLater`) |
| `OpenAIApi.UpdateAgainLater` | src/services/OpenaiApiService.ts:372-422 | applying the same snapshots again at a later instant, when each carries `created_at`, changes only check times: every record keeps its place, fields and date; the snapshots' records are checked at the later instant, the others keep their check time |
| `OpenAIApi.NormalizeRestamped` | src/services/OpenaiApiService.ts:383-413 | snapshots that carry `created_at`, normalised at two instants, give records that differ only in check time |
| `OpenAIApi.NormalizedIds` | src/services/OpenaiApiService.ts:383 | the ids of the normalised snapshots are exactly the snapshots' ids |
| `OpenAIApi.UndatedSnapshotRedated` | src/services/OpenaiApiService.ts:408-410 | a snapshot without `created_at` is dated by the clock, so applying it again later re-dates its record to the later instant |
| `AnthropicApi.IsValidApiKeyFormat` | src/services/AnthropicApiService.ts:37-39 | a key is accepted exactly when it starts with `sk-ant-` |
| `AnthropicApi.MapStatusToCommon` | src/services/AnthropicApiService.ts:198-211 | for each common status, the exact set of Anthropic statuses that map to it; never `failed` or `expired` |
| `AnthropicApi.MapStatusOnCommonNames` | src/services/AnthropicApiService.ts:198-211 | only `pending` and `in_progress` map to themselves; every other common name maps to `pending` |
| `AnthropicApi.CustomIdFor` | src/services/AnthropicApiService.ts:97 | a truthy `custom_id` is kept, otherwise `req-` and the drawn suffix; the id is always truthy |
| `AnthropicApi.TranslateRecord` | src/services/AnthropicApiService.ts:86-120 | a parsed `null` is dropped; a record with `params.messages` passes through, before any `body.messages` test; OpenAI-shaped records keep their messages with model and token limit defaulted; other records become one user message with `content` or the placeholder; every result passes the pass-through test |
| `AnthropicApi.TranslateIdempotent` | src/services/AnthropicApiService.ts:90-92 | translating a translated record again returns it unchanged, whatever suffix is drawn |
| `AnthropicApi.TranslateLine` | src/services/AnthropicApiService.ts:85-120 | a line yields a request exactly when it parses to something other than `null` |
| `AnthropicApi.NonBlank` | src/services/AnthropicApiService.ts:84 | the kept lines are the lines that are not all white space, each kept exactly as often as it occurs; input without blank lines is returned unchanged, and a single line is kept or dropped alone |
| `AnthropicApi.NonBlankAppend` | src/services/AnthropicApiService.ts:84 | the filter keeps file order: filtering a concatenation filters each part |
| `AnthropicApi.Present` | src/services/AnthropicApiService.ts:121 | the kept values are exactly the present ones |
| `AnthropicApi.PresentAppend` | src/services/AnthropicApiService.ts:121 | the null filter keeps order: filtering a concatenation filters each part |
| `AnthropicApi.PresentAllSome` | src/services/AnthropicApiService.ts:121 | with nothing null, the filter keeps every value in place |
| `AnthropicApi.ParseJsonlToAnthropicFormat` | src/services/AnthropicApiService.ts:83-122 | there are no more requests than non-blank lines, and every request is in Message Batches form |
| `AnthropicApi.ParseJsonlSoundComplete` | src/services/AnthropicApiService.ts:83-122 | a request is produced exactly when some non-blank line translates to it |
| `AnthropicApi.BlankLinesNotParsed` | src/services/AnthropicApiService.ts:84 | the parser is never consulted on blank lines |
| `AnthropicApi.ParseJsonlOnePerLine` | src/services/AnthropicApiService.ts:83-122 | when every non-blank line parses to a non-null record, there is one request per line, in line order |
| `AnthropicApi.TranslateAllParsed` | src/services/AnthropicApiService.ts:85-121 | lines that all parse to non-null records give one translated request per line, in place |
| `AnthropicApi.BlankFileNoRequests` | src/services/AnthropicApiService.ts:84 | a file of white space yields no requests |
| `AnthropicApi.UnparsableLineDropped` | src/services/AnthropicApiService.ts:117-121 | a line that does not parse is dropped, and the requests before and after it keep their order |
| `AnthropicApi.MiddleLineInvalid` | src/services/AnthropicApiService.ts:84-121 | three lines with an invalid middle one give two requests, from the first and the third line |
| `AnthropicApi.CreateBatchJob` | src/services/AnthropicApiService.ts:46-66 | without a key it fails before reading; an unreadable or empty file is rejected; otherwise it submits the translated requests |
| `AnthropicApi.ReadFileContent` | src/services/AnthropicApiService.ts:129-142 | the read succeeds exactly when the reader delivers non-empty text, and returns that text |
| `AnthropicApi.TotalCount` | src/services/AnthropicApiService.ts:182-186 | a total exists exactly when all five counters are present, and it is processing + succeeded + errored + canceled + expired; an absent counter gives no total rather than zero |
| `AnthropicApi.TotalCountCoversCounters` | src/services/AnthropicApiService.ts:182-186 | with all five counters present and none negative, the total bounds each counter, and it is zero only when all of them are |
| `AnthropicApi.TotalCountExample` | src/services/AnthropicApiService.ts:182-186 | counters 0, 1, 2, 0, 0 total 3; a map with only two counters has no total |
| `AnthropicApi.StatusFromResponse` | src/services/AnthropicApiService.ts:173-190 | the common record holds the mapped status, `ended_at` as completion time, `expires_at` as eta, null file ids, the counts unchanged, the derived total, the results URL, `/v1/messages` and `24h` |
| `AnthropicApi.GetBatchStatus` | src/services/AnthropicApiService.ts:149-191 | without a key it fails before any request; a failed request's error propagates; a response yields exactly the record `StatusFromResponse` builds, so its counts are the response's and its total is their sum |
| `AnthropicApi.DownloadFileContent` | src/services/AnthropicApiService.ts:290-317 | without a key it fails; a status error propagates; a batch without a results URL is reported not ready; otherwise the download's outcome is returned |
| `AnthropicApi.DownloadNeedsResultsUrl` | src/services/AnthropicApiService.ts:297-301 | without a results URL the download is never consulted and the call fails |
| `AnthropicApi.SaveBatchInfo` | src/services/AnthropicApiService.ts:360 | a new id saved without an endpoint is stored with `/v1/messages` |
| `AnthropicApi.SnapshotStatus` | src/services/AnthropicApiService.ts:411 | a non-empty `processing_status` is mapped; otherwise `status` is |
| `AnthropicApi.Normalize` | src/services/AnthropicApiService.ts:409-422 | the stored record has a common status other than failed or expired, is dated by its creation time, takes `ended_at` else `completed_at`, and `expires_at` else `eta`, has null file ids and no counts, `/v1/messages`, `24h`, and is checked now |
| `AnthropicApi.CompletedStatusOnlySnapshot` | src/services/AnthropicApiService.ts:411 | a snapshot carrying only `status: "completed"` is stored as `pending` |
| `AnthropicApi.UpdateBatchesInStorage` | src/services/AnthropicApiService.ts:395-433 | no snapshots: no change; otherwise the entry is sorted newest first, has distinct ids and holds every snapshot's id |
| `AnthropicApi.LastSnapshotWins` | src/services/AnthropicApiService.ts:408-423 | the last snapshot of each id is stored, normalised |
| `AnthropicApi.UpdatedRecordsNormalised` | src/services/AnthropicApiService.ts:409-422 | a stored record with a snapshot's id is some snapshot normalised: a common status, checked now, no counts, `/v1/messages` |
| `AnthropicApi.NormalizedMember` | src/services/AnthropicApiService.ts:409-422 | a record among the normalised snapshots is one of them: a common status, checked now, no counts, `/v1/messages` |
| `AnthropicApi.UntouchedRecordsKept` | src/services/AnthropicApiService.ts:402-405 | on a store with distinct ids, a stored record whose id no snapshot carries stays unchanged |
| `AnthropicApi.UpdateTwice` | src/services/AnthropicApiService.ts:395-433 | applying the same snapshots twice at the same instant stores what applying them once does (for two instants see `UpdateAgainLater`) |
| `AnthropicApi.UpdateAgainLater` | src/services/AnthropicApiService.ts:395-433 | applying the same snapshots again at a later instant changes only check times: every record keeps its place, fields and date; the snapshots' records are checked at the later instant, the others keep their check time |
| `AnthropicApi.NormalizeRestamped` | src/services/AnthropicApiService.ts:409-422 | snapshots normalised at two instants give records that differ only in check time, since a record is dated by `created_at` |
| `AnthropicApi.NormalizedIds` | src/services/AnthropicApiService.ts:409 | the ids of the normalised snapshots are exactly the snapshots' ids |
| `BaseModels.GetCachedModels` | src/services/BaseModelsService.ts:42-52 | there is an entry exactly when the key holds one that parses |
| `BaseModels.IsCacheExpired` | src/services/BaseModelsService.ts:59-61 | an entry is expired exactly when more than 86,400,000 milliseconds have passed since its timestamp |
| `BaseModels.ExpiryBoundary` | src/services/BaseModelsService.ts:8 | an entry is fresh when just cached and at exactly 24 hours, and expired one millisecond later |
| `BaseModels.CacheModels` | src/services/BaseModelsService.ts:67-73 | the entry then read holds exactly the list, stamped now, and is fresh |
| `BaseModels.ClearCache` | src/services/BaseModelsService.ts:34-36 | no entry is read afterwards |
| `BaseModels.FetchAndCache` | src/services/OpenAIModelsService.ts:43-44 | a fetch's outcome is returned; on success the returned list is the list cached, stamped now; on failure the cache is untouched |
| `BaseModels.GetModels` | src/services/BaseModelsService.ts:14-21 | the provider is skipped exactly when a fresh entry exists, and then the cached list is returned; otherwise it is a fetch |
| `BaseModels.RefreshModels` | src/services/BaseModelsService.ts:27-29 | always a fetch, whose list is then cached |
| `BaseModels.CacheThenGetHits` | src/services/BaseModelsService.ts:14-18 | a list cached now is returned now without a fetch |
| `BaseModels.SecondGetWithinWindowHitsCache` | src/services/BaseModelsService.ts:14-21 | after a successful fetch, a second call within 24 hours returns the same list without asking the provider |
| `BaseModels.ClearThenGetFetches` | src/services/BaseModelsService.ts:34-36 | after clearing, the next call fetches |
| `BaseModels.UnreadableLikeMissing` | src/services/BaseModelsService.ts:46-51 | an entry that does not parse is treated like no entry: both fetch |
| `OpenAIModels.Gpt4oSubsumed` | src/services/OpenAIModelsService.ts:28-34 | every id containing `gpt-4o` contains `gpt-4`, so that pattern adds nothing |
| `OpenAIModels.FilterCoding` | src/services/OpenAIModelsService.ts:36-39 | the filter keeps each coding model id as often as it is listed and drops every other id |
| `OpenAIModels.DescendingTotalOrder` | src/services/OpenAIModelsService.ts:41 | the comparator is a total order: total, antisymmetric and transitive |
| `OpenAIModels.SelectModels` | src/services/OpenAIModelsService.ts:36-41 | the catalog is sorted descending and holds exactly the listed ids that contain a pattern, each as often as listed |
| `OpenAIModels.SelectModelsOrderIndependent` | src/services/OpenAIModelsService.ts:36-41 | the catalog does not depend on the order in which the response lists the models |
| `OpenAIModels.Fetch` | src/services/OpenAIModelsService.ts:11-41 | without a key it fails before any request; a failed request's error propagates; otherwise the selected catalog |
| `OpenAIModels.FetchAndCacheModels` | src/services/OpenAIModelsService.ts:10-49 | without a key nothing is requested or cached; a failed request's error propagates and the cache is untouched; otherwise the result is exactly `SelectModels` of the response, and the list returned is the list cached |
| `OpenAIModels.GetModels` | src/services/BaseModelsService.ts:14-21 | a fetching call is `fetchAndCacheModels`, and the list it returns is sorted descending |
| `Sorting.Sort` | src/services/OpenaiApiService.ts:347 | the sort is a permutation of its input |
| `Sorting.SortSorted` | src/services/OpenaiApiService.ts:347 | with a total comparator the sort's output is in order |
| `Sorting.SortOfSorted` | src/services/OpenaiApiService.ts:419 | sorting a sequence already in order leaves it unchanged |
| `Sorting.SortedUnique` | src/services/OpenAIModelsService.ts:41 | under a total order two sorted arrangements of the same elements are equal |
| `Text.Split` | src/services/AnthropicApiService.ts:84 | `split('\n')` yields at least one piece, and no piece contains a newline |
| `Text.JoinSplit` | src/services/AnthropicApiService.ts:84 | joining the pieces of a split with newlines gives back the text |
| `Text.SplitJoin` | src/services/AnthropicApiService.ts:84 | splitting a newline join of newline-free pieces gives back the pieces |
| `Text.ContainsIffOccurs` | src/services/OpenAIModelsService.ts:38 | `includes` holds exactly when the pattern occurs at some position |
| `ApiFactory.GetService` | src/services/ApiServiceFactory.ts:14-24 | `anthropic` selects the Anthropic client; every other name, including the empty one, selects OpenAI |
| `ApiFactory.GetServiceTagRoundTrip` | src/services/ApiServiceFactory.ts:15-19 | each client's own name selects it |
| `ApiFactory.AnthropicKeysLookLikeOpenAIKeys` | src/services/AnthropicApiService.ts:37-39 | a key the Anthropic client accepts also passes the OpenAI check, and not conversely |

## Left out

- The network: every `fetch` call, and `cancelBatchJob`, `listBatches`, OpenAI's `downloadFileContent` and `uploadFile`. Only their guards are modelled, and their outcomes are parameters. A failed final submission in `createBatchJob` is not modelled either; the model returns the body that would be submitted.
- `FileReader`, `FormData`, `File`: the file content is a given `Option<string>`, where `None` stands for a reader error.
- `localStorage` itself, and `getApiKey` and `saveApiKey`: the key is a parameter `Option<string>`, and the entries are values.
- The JSON text grammar, meaning `JSON.parse` and `JSON.stringify`: parsing is a function parameter. A stored entry that parses but is not a list of batch records is not distinguished from a list.
- JSON numbers are integers here. Fractional numbers and `NaN` are not modelled.
- `Math.random` ids: the suffix is a parameter.
- Date formatting and parsing (`toISOString`, `new Date(string)`): times are epoch milliseconds. An invalid date, which makes the sort comparator `NaN`, is not modelled.
- `AnthropicApi.Snapshot`: the snapshot's `created_at` is required, because an absent one gives the source a `NaN` sort key.
- `Sorting.Sort`: stability is built into the insertion, but the model does not prove it.
- `localeCompare` is modelled as code-point (Unicode scalar value) lexicographic order, with no locale collation.
- Strings are sequences of Unicode scalar values, not UTF-16 code units. JavaScript compares and measures strings by UTF-16 code units, which orders characters above U+FFFF before those in U+E000–U+FFFF where this model orders them after. Lone surrogates cannot be represented.
- `Object.values` order is modelled as insertion order. The rule that lists integer-like keys first is not modelled.
- A spread key that is present but `undefined` is not distinguished from an absent key.
- `src/services/AnthropicModelsService.ts` is not part of this model, because it is a fetch followed by an id projection over the same cache. `src/main.js` is not part of this model either, because it is application bootstrap.
- The Anthropic `total_count` follows the code rather than treating absent counters as zero. An absent counter makes the sum `NaN` and not 0; this is modelled as `None`.
- `console.error` logging is not modelled: the no-id message in `saveBatchInfo`, the unparsable-line message in `_parseJsonlToAnthropicFormat`, and the cache and fetch messages of the models services. Logging has no effect on the returned values or the stored entries.
- The OpenAI `updateBatchesInStorage` dates a snapshot without `created_at` by the clock, so re-applying it later changes its date (`OpenAIApi.UndatedSnapshotRedated`). This is the code's behaviour and is modelled as written; `OpenAIApi.UpdateAgainLater` therefore holds only for snapshots that carry `created_at`.
- Both `saveBatchInfo` copies copy `results_url` and default `date` to now on insert. So the two providers differ only in their endpoint default, and one shared definition serves both.
