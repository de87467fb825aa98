# ZPL render orchestration, modelled in Dafny

This project models the server-side core of a ZPL label playground. The
server receives a ZPL document (label markup), counts the labels in it and
cuts it at every graphic download (`~DGR:`). It sends each piece, or a
chunk of up to 16 labels, to the Labelary rendering service. A process-wide
limiter caps the requests in flight. Each call makes up to five attempts,
with exponential backoff, base-URL rotation and User-Agent rotation. A PDF
download posts one label per call, two labels per batch, through a small
pool of instance ids, and merges the pages back in label order. The model
also covers three parts of the page:

- the label counter and the effect that clamps the label index;
- the request for the first label;
- the form's validation rules.

It also covers the diagnostic label report.

The network is a script. The outcome of attempt k of a call is given as
`outcomes[k]` (a response with a status, an optional Retry-After value and a
body; a timeout abort; or any other thrown error). The random jitter of
attempt k is given as `jitters[k]`. Every retry loop, split loop, batch
loop and merge loop of the source is a `method` with a `while` loop. Each
loop is proved against a specification function (`Scan`, `Groups`,
`Chunked`, `Resolve`, `Locate`, `Collect`, `IndividualLabel`). Properties of
those functions are then proved as lemmas. The concurrency limiter, whose
counter and queue the source updates in place, is a `class`.

Modules, one file each:

- `Wrappers` — Option.
- `Arith` — `Min` and the facts about integer division the chunk and batch arithmetic needs.
- `Text` — JavaScript `trim`, one-character `split`, `join`, and the decimal rendering of numbers.
- `Patterns` — the regular expressions on ZPL text. It pairs the global-match scan with a reference definition (every matching index) and proves the two agree.
- `LabelCount` — countLabelsInZPL.
- `Splitting` — the two splitters.
- `Request` — dpiToDpmm, the request path, the base-URL pool, pickUserAgent and computeBackoff.
- `Limiter` — acquire/release as a class.
- `Fetch` — the fetchLabelary retry loop.
- `Preview` — renderZplAction.
- `Pdf` — downloadPdfActionIndividualLabels.
- `DebugCount` — debugZplLabels.
- `Playground` — countLabels, the clamp effect, handleRender and formSchema of the page.

Facts of the code that shape the model:

- A call makes at most five attempts (`maxAttempts`).
- Only 429, 5xx and timeout aborts are retried; other thrown network errors end the call at once.
- There is no result cache, no de-duplication of identical labels and no PNG fallback strategy.

## Model

| member | source | states |
|---|---|---|
| Text.TrimShape | src/app/actions.ts:77 | `trim()` returns one contiguous stretch of the input; only whitespace lies outside it, and the stretch neither starts nor ends with whitespace |
| Text.TrimIdempotent | src/app/actions.ts:77 | trimming a trimmed string changes nothing |
| Text.TrimKeepsPrefix | src/app/actions.ts:105 | trimming a piece that starts with a non-blank marker keeps that marker in front and only cuts the tail |
| Text.SplitOn | src/app/actions.ts:138-139 | no piece holds the separator, there is at least one piece, and joining the pieces with the separator gives the input back |
| Text.SplitJoin | src/app/actions.ts:138-139 | splitting a join undoes it when no part holds the separator |
| Text.NatToString | src/app/actions.ts:219 | a number in a template literal is a non-empty run of digits without leading zeros whose decimal value is the number |
| Text.IntToString | src/app/actions.ts:276 | a negative status is a minus sign before the digits of its magnitude; the rendering never holds '/' or ',' |
| Patterns.AllMatchesExact | src/app/actions.ts:40 | the reference list holds exactly the indices at which the pattern matches, in strictly increasing order |
| Patterns.ScanFindsAll | src/app/actions.ts:69 | for every marker pattern, the global-match scan, resuming after each match, finds exactly the reference list of matching indices |
| Patterns.CountIsOccurrences | src/app/actions.ts:48 | the length of a global match is the number of indices at which the pattern matches |
| Patterns.FirstMatch | src/app/actions.ts:56 | a non-global match finds the least matching index, or reports none when no index matches |
| Patterns.OccurrencesConcat | src/app/actions.ts:78-80 | when the seam cannot hold a match, the occurrences of a literal in a concatenation add up |
| Patterns.OccurrencesJoin | src/app/actions.ts:87 | parts that each hold one occurrence, joined with a separator free of the literal's characters, hold one occurrence per part |
| LabelCount.FirstPqValue | src/app/actions.ts:56-61 | none exactly when no ^PQ with digits occurs; otherwise the decimal value of the digits captured at the first such ^PQ |
| LabelCount.CountLabelsRules | src/app/actions.ts:35-65 | the ~DGR: count decides when positive, then the count of ^XA not followed by ^QA or ^MMT, then the first ^PQ value, then 1 |
| LabelCount.DgrCountIsAuthoritative | src/app/actions.ts:38-45 | text appended without a new ~DGR: never changes the count of a document that has graphic downloads |
| LabelCount.DgrDecides | src/app/actions.ts:42-45 | a positive number of ~DGR: is the count |
| LabelCount.OneDgrIsOneLabel | src/app/actions.ts:40-45 | one graphic download means one label, whatever else the text holds |
| LabelCount.CountZeroOnlyFromPq | src/app/actions.ts:55-64 | the count is zero exactly when there is no ~DGR: and no standalone ^XA, and the first ^PQ argument is 0 |
| LabelCount.StandaloneXaAtMostXa | src/app/actions.ts:48 | there are never more standalone label starts than ^XA occurrences |
| Splitting.SplitIntoIndividualLabels | src/app/actions.ts:96-120 | one label per ~DGR: in document order; label k is the trimmed piece from the k-th ~DGR: to the next, repaired; every label holds ^XA and ^XZ and begins with ~DGR: or ^XA~DGR: |
| Splitting.IndividualLabelShape | src/app/actions.ts:105-113 | each individual label holds both ^XA and ^XZ and starts with its ~DGR:, possibly after an added ^XA |
| Splitting.CompleteLabelShape | src/app/actions.ts:107-113 | the repair adds ^XA in front only when missing and ^XZ at the end only when missing, so both are present afterwards |
| Splitting.TrimmedOneDgr | src/app/actions.ts:74-77 | the trimmed piece cut for a ~DGR: holds exactly that one ~DGR: |
| Splitting.TerminatedLabelShape | src/app/actions.ts:77-80 | each label of a chunk starts with ~DGR:, ends with ^XZ and holds exactly one ~DGR: |
| Splitting.CutChunkLabels | src/app/actions.ts:72-82 | the first loop of splitZplIntoChunks produces the reference list of cut, trimmed and ^XZ-terminated labels |
| Splitting.GroupIntoChunks | src/app/actions.ts:84-90 | the chunk loop produces the reference chunking: each group of m consecutive labels joined with a blank line |
| Splitting.GroupsPartition | src/app/actions.ts:86-87 | the groups concatenate back to the labels; there are ceil(n / m) of them; each but the last holds m labels, and the last between 1 and m |
| Splitting.SplitIntoChunks | src/app/actions.ts:68-93 | ceil(n / m) chunks for n graphic downloads, equal to the reference chunking, chunk c holding one ~DGR: per label of its group |
| Splitting.JoinedDgrCount | src/app/actions.ts:87 | a group of labels with one ~DGR: each, joined with blank lines, holds one ~DGR: per label |
| Splitting.ChunksHoldTheirLabels | src/app/actions.ts:84-90 | when every label holds one ~DGR:, so does every chunk per label of its group |
| Splitting.ChunksOfDocument | src/app/actions.ts:68-93 | the chunks of a document number ceil(n / m) and each holds one ~DGR: per label of its group |
| Request.DpiToDpmmValues | src/app/actions.ts:25-32 | the density is 8, 12 or 24; 12 exactly for 300 dpi, 24 exactly for 600 dpi, 8 for everything else |
| Request.DpiToDpmmRounds | src/app/actions.ts:25-32 | for 203, 300 and 600 dpi the result is dpi / 25.4 to the nearest integer |
| Request.PathIndexSuffix | src/app/actions.ts:215-220 | a png request with a label index has the index-less path plus '/' and the index, and only such a request has eight segments; any other request has the plain path |
| Request.SegmentsHaveNoSlash | src/app/actions.ts:219 | with width and height free of '/', no path segment holds '/' |
| Request.PathRoundTrip | src/app/actions.ts:215-220 | splitting the built path at '/' gives back exactly its segments |
| Request.NonEmpty | src/app/actions.ts:141 | the filter keeps exactly the non-empty entries: every kept entry is a non-empty input entry, and every non-empty input entry is kept |
| Request.NonEmptyConcat | src/app/actions.ts:141 | the filter works entry by entry: filtering a concatenation concatenates the filtered parts, so input order is kept |
| Request.TrimEach | src/app/actions.ts:140 | each entry is replaced by its trimmed form, one for one |
| Request.ParsedUrlsAreClean | src/app/actions.ts:138-141 | every parsed base URL is non-empty, holds no comma and is already trimmed |
| Request.ParseJoin | src/app/actions.ts:131-141 | parsing a comma-joined list of clean URLs gives the list back |
| Request.DefaultPools | src/app/actions.ts:134-141 | the default setting parses, in development, to the local proxy and then the public API, and in production to the public API alone |
| Request.ConfiguredPool | src/app/actions.ts:137-141 | a non-empty LABELARY_BASE_URLS is used instead of the default, and the pool is what it parses to |
| Request.FallbackPool | src/app/actions.ts:134-141 | an unset or empty LABELARY_BASE_URLS falls back to the default setting, which parses to the default pool |
| Request.StripTrailingSlash | src/app/actions.ts:228 | exactly one trailing slash is removed when present; otherwise the URL is unchanged |
| Request.UserAgentRotation | src/app/actions.ts:146-148 | every pick is one of the five agents; the rotation repeats every five seeds, and consecutive seeds never share an agent |
| Request.BackoffBounds | src/app/actions.ts:154-157 | the backoff is the exponential delay plus the jitter, or 8000 ms when that is larger; it never exceeds 8000 ms |
| Request.BackoffMonotone | src/app/actions.ts:154-157 | with the base and the jitter fixed, a later attempt never waits less |
| Request.RetryDelay | src/app/actions.ts:259-269 | the wait before retrying a 429 or 5xx is the larger of Retry-After in milliseconds and the backoff |
| Limiter.SlotLimiter.constructor | src/app/actions.ts:160-165 | the cap is the configured number, or 1 when that is below 1; nothing is in flight and no one waits |
| Limiter.SlotLimiter.Acquire | src/app/actions.ts:167-174 | below the cap the caller is admitted and the counter rises by one; at the cap the caller joins the back of the queue and the counter is unchanged; queue order is kept |
| Limiter.SlotLimiter.Release | src/app/actions.ts:176-180 | the counter drops by one but never below zero; the oldest waiter, if any, is woken and leaves the queue; Valid keeps every waiter ever queued equal to those woken followed by those still waiting, so waiters are woken in exactly the order they queued |
| Limiter.SlotLimiter.Resume | src/app/actions.ts:172-173 | the oldest woken waiter counts itself in, and the cap still holds |
| Limiter.FifoWakeOrder | src/app/actions.ts:165-180 | an example: with a cap of one and callers 10, 11 and 12 queued in that order, three releases wake them in that order |
| Fetch.BaseIndex | src/app/actions.ts:227 | the base URL of an attempt is always an entry of the pool |
| Fetch.BasesRotate | src/app/actions.ts:227 | with two or more base URLs, consecutive attempts use different ones; instance i starts at entry (i - 1) mod n of a pool of n |
| Fetch.HandleOutcome | src/app/actions.ts:246-284 | an attempt backs off exactly when its outcome is a 429, a 5xx or a timeout, by that outcome's delay; any other outcome settles the call with its body or its error |
| Fetch.FetchLabelary | src/app/actions.ts:188-293 | one to five attempts; attempt k goes to base (instance - 1 + k) mod n with agent instance + k and posts the text; every attempt but the last was retried; the result is the reference outcome of the script |
| Fetch.SkipRetried | src/app/actions.ts:226-290 | skipping retried attempts does not change the outcome of a call |
| Fetch.FetchedOnlyOnOk | src/app/actions.ts:253-256 | a call returns a body exactly when some attempt gets a 2xx and every attempt before it was retried |
| Fetch.ExhaustedOnlyAfterFiveRetries | src/app/actions.ts:226-292 | the exhausted-retries error arises exactly when all five attempts were retried, unless a thrown error carries the same message |
| Fetch.StatusMessageIsNotExhausted | src/app/actions.ts:276 | a non-retryable status error is never mistaken for exhausted retries |
| Fetch.ExhaustedDoesNotMention429 | src/app/actions.ts:292 | the exhausted-retries message does not contain "429" |
| Fetch.AttemptsKeepSlotDiscipline | src/app/actions.ts:242-289 | in the events of the attempts, acquires and releases alternate, and every backoff and send happens while the slot is held |
| Fetch.OneSlotPerAttempt | src/app/actions.ts:242-289 | each attempt acquires one slot and releases one slot, whatever its outcome |
| Preview.LocateLabel | src/app/actions.ts:304-315 | the search loop stops at the chunk the reference search finds, with the index left in it; when no chunk is found it keeps chunk 0 and the index left after every chunk |
| Preview.ChunkCount | src/app/actions.ts:309 | a chunk of k labels with one ~DGR: each is counted as k labels |
| Preview.LocateInChunks | src/app/actions.ts:303-315 | for 1 <= idx <= n, the search lands in chunk (idx - 1) div m at index idx - m * ((idx - 1) div m) |
| Preview.LocatedChunkExists | src/app/actions.ts:317 | the chunk found for a label index within the document is one of the chunks |
| Preview.DocumentLabelsHoldOneDgr | src/app/actions.ts:303 | every label the chunk splitter cuts holds one ~DGR: |
| Preview.PreviewTarget | src/app/actions.ts:295-327 | for at most 16 labels the whole text and index; above 16 the chunk holding the label and the index inside it, or an empty body when there are no chunks |
| Preview.RenderZpl | src/app/actions.ts:295-327 | the result is the reference outcome of the script; every attempt posts the chosen text to the png path with the chosen index |
| Pdf.PoolSize | src/app/actions.ts:358 | the pool holds between one and three instances |
| Pdf.PoolSizeSteps | src/app/actions.ts:358 | one instance below 20 labels, two from 20 to 29, three from 30 on |
| Pdf.InstanceFor | src/app/actions.ts:384-385 | each label's instance id lies between 1 and the pool size |
| Pdf.InstancesRoundRobin | src/app/actions.ts:385 | the assignment repeats every pool-size labels; with two or more instances, neighbouring labels never share one |
| Pdf.ExhaustedIsFinal | src/app/actions.ts:399-409 | a label whose first call exhausted its retries is not retried again and fails with that message |
| Pdf.StatusBodyWith429IsRetried | src/app/actions.ts:399-406 | a 404 whose body mentions 429 does trigger the second call |
| Pdf.ProcessLabel | src/app/actions.ts:383-413 | the label goes through instance (k mod pool) + 1; after a failure mentioning 429 the label waits one second per instance id and is fetched once more; every attempt posts the label |
| Pdf.MakeBatches | src/app/actions.ts:369-373 | the batching loop produces the reference grouping of the labels in twos |
| Pdf.CollectSpec | src/app/actions.ts:415-416 | when every label was fetched, the combination holds all bodies in label order; otherwise it reports the earliest failure, every label before it fetched |
| Pdf.ProcessBatch | src/app/actions.ts:377-416 | every label of the batch is posted through its instance, even after one fails; with no failure the bodies are appended in label order, otherwise nothing is appended and the batch reports its lowest-indexed failure, every label before which was fetched |
| Pdf.ProcessLabels | src/app/actions.ts:351-424 | the outcome is the reference combination of the labels' results; label k is posted through instance (k mod pool) + 1; success posts every label after a 300 ms pause between batches and none after the last; a failure at label j posts every label through the end of its batch, after j div 2 pauses |
| Pdf.FailedBatchReach | src/app/actions.ts:369-416 | a failure inside batch b lies at index j with j div 2 = b, and that batch ends at label min(n, (j div 2 + 1) * 2) |
| Pdf.AllFetchedIsCollected | src/app/actions.ts:415-416 | when every label was fetched, the combination reports exactly their bodies |
| Pdf.FirstFailureIsCollected | src/app/actions.ts:415 | the first failing label decides the error the combination reports |
| Pdf.BatchStep | src/app/actions.ts:369-378 | each batch is the next slice of at most two labels; every batch but the last holds two, and the last ends the labels |
| Pdf.FailedBatchPauses | src/app/actions.ts:419-423 | a failure at position j of batch b comes after exactly b pauses |
| Pdf.MergeBatchSize | src/app/actions.ts:433 | documents are loaded 20 at a time above 30 labels, else 15 |
| Pdf.MergeInOrder | src/app/actions.ts:433-453 | the merged pages are exactly the labels' documents in label order |
| Pdf.DownloadPdf | src/app/actions.ts:334-463 | one label: one call through instance 1, the error passed on unchanged. Otherwise each ~DGR: label is posted on its own through its round-robin instance; success gives the documents in label order, and failure gives the first failing label's message wrapped with the label count, after posting every label through the end of the failing batch |
| DebugCount.Recommended | src/app/debug-actions.ts:32 | the recommendation is at least each of the ~DGR: count, the ^PQ count and half the ^XA count, and equals one of them |
| DebugCount.ReportCounts | src/app/debug-actions.ts:4-44 | each reported count is the number of indices where its marker occurs; the length is the text's |
| DebugCount.NoMarkersNoLabels | src/app/debug-actions.ts:10-33 | with no ~DGR:, no ^PQ and at most one ^XA the recommendation is zero |
| DebugCount.XaCountCoversStandalone | src/app/debug-actions.ts:16-18 | the diagnostic's ^XA count is at least the standalone count the server uses |
| DebugCount.RecommendedCoversDgrCount | src/app/debug-actions.ts:32 | with graphic downloads the recommendation is never below the server's label count |
| Playground.CountLabelsRules | src/app/page.tsx:85-99 | the standalone ^XA count decides when positive, then the first ^PQ value, then 1 |
| Playground.AgreesWithServerWithoutDgr | src/app/page.tsx:85-99 | without ~DGR: the page and the server count alike |
| Playground.DiffersWithDgr | src/app/page.tsx:85-99 | with graphic downloads and a different positive ^XA count, the page and the server disagree |
| Playground.ClampRules | src/app/page.tsx:101-107 | the total is at least 1 and equals a positive count; the index is reset to 1 exactly when it exceeds the total and is otherwise kept |
| Playground.ClampInRange | src/app/page.tsx:101-107 | after the effect a positive index lies between 1 and the total |
| Playground.ClampIdempotent | src/app/page.tsx:101-107 | a second run of the effect changes nothing |
| Playground.HandleRender | src/app/page.tsx:116-123 | whatever index it is given, the page shows label 1 and requests label 1: the whole text for at most 16 labels, otherwise the first chunk |
| Playground.Issues | src/app/page.tsx:32-39 | a field is reported exactly when the schema declares it and its rule fails |
| Playground.SchemasDeclareEveryField | src/app/page.tsx:32-39 | both schemas declare all six fields |
| Playground.NoIssues | src/app/page.tsx:32-39 | no issue exactly when every declared field keeps its rule |
| Playground.AcceptedInput | src/app/page.tsx:32-39 | a submission is accepted exactly when the ZPL is non-empty, the dpi is an integer, width and height are positive, the unit is in or mm and the orientation is 0 or 90 |
| Playground.SchemasAgree | src/app/actions.ts:6-13 | the server's schema and the page's report the same fields and so accept the same submissions |

## Left out

- Concurrency inside `Promise.all`: a batch's labels are processed one after another, and every label of the batch is still posted when one fails. A failing batch reports its lowest-indexed failure; `Promise.all` rejects with whichever failure happens first in time, which the model does not schedule.
- Asynchronous blocking in the limiter: a waiter is a queue entry that Resume counts in. The cap argument assumes every woken waiter resumes before any fresh acquire; the model does not schedule interleavings.
- Limiter.SlotLimiter.constructor: the cap is an integer input; a non-numeric LABELARY_MAX_CONCURRENCY makes the source's cap NaN, so that no caller is ever admitted, and that path is not modelled.
- Limiter.SlotLimiter.Acquire: keeps the cap only when no woken waiter is still pending, because a fresh caller can overtake a woken one in the source.
- The attempts of a call do not drive a shared limiter object; their acquire/release/sleep events are derived from the attempts, and the slot discipline is proved over them.
- Request headers other than User-Agent (Accept, Content-Type, X-API-Instance, X-Request-Priority) are not modelled.
- Timeouts and `AbortController`: a timeout is the scripted outcome `Abort`, and the timeout constant is not modelled.
- Floating-point sizes: the mm-to-inch division and the rendering of width and height in the path are abstract text parameters.
- `parseInt` of Retry-After is an optional integer input: an empty or non-numeric header is `None`.
- `parseInt` of a huge ^PQ argument is exact here; JavaScript loses precision beyond 2^53.
- Math.random: the jitter is a scripted input below 250.
- `Date.now`, `requestId`, `inUse` and `lastUsed` of the instance records are not modelled; they only feed logging.
- Base64 encoding, the `data:` URL prefix and pdf-lib internals: a document is one page and the merge is a list of pages.
- The network itself is a script of outcomes, one per attempt.
- Console logging everywhere, and the section split in debugZplLabels, which is only logged.
- `zpl.length` counts UTF-16 code units in JavaScript; here it is the number of characters.
- Edge case: a text counted above 16 labels by ^XA or ^PQ with no ~DGR: has no chunks, so the preview posts an empty body. PreviewTarget states this.
- Edge case: a text counted as more than one label but with no ~DGR: splits into no labels and downloads a document with no pages. DownloadPdf states this.
- The PDF path's extra 429 retry never follows an exhausted call, because the exhausted message does not mention 429 (ExhaustedIsFinal).
- The server's form schema is only a type there; the model states that it agrees with the page's validation rules.
- The page scaling of the preview image, the toasts and the UI state other than the label index and total are not modelled.
