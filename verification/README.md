# Models of the RepoPact benchmark harness

A Dafny model of the deterministic core of the RepoPact Proving Ground benchmarks, with proofs of what
that core promises. It covers five parts.

- **Token accounting.** The JSON-RPC message loop of a Codex app-server run, the cumulative usage ledger
  inside it, the per-request records made from the accepted usage, their aggregate, the envelope validator,
  and the v2 wire between adapter and parser. The accounting of the Claude Code transport is beside it.
- **S4 context and analysis.** The bounded formatter, hashed embeddings and their cosine, top-k retrieval,
  the memory store, and the Pareto frontier.
- **The bounded quiescent read.** A retry loop under an attempt cap and a deadline.
- **S3 coordination.** Two workers on isolated roots as an interleaving of steps, their snapshot diffs, and
  the scorer.
- **Materializers.** PactBench setup, arm rendering and tree fingerprints, and the S2 writer and verifier.

Every loop of the source that updates variables is a method with invariants, and every object that updates
its fields is a class (`UsageLedger`, `Connection`, `MemoryStore`, `Workspace`). Each is proved equal to a
specification function or against a predicate, and the laws are lemmas about that specification.
`dafny verify dfyconfig.toml` checks the project.

## Modules

| module | source |
|---|---|
| `CodexUsage` | benchmarks/harness/codex_usage.py |
| `AgentMessages`, `AppServer`, `AppServerSafety`, `AppServerProtocol` | benchmarks/harness/codex_app_server.py |
| `TokenModel`, `Execution` | benchmarks/harness/model.py, benchmarks/harness/execution.py |
| `Runners` | benchmarks/harness/runners.py, benchmarks/harness/codex_real_runner_v2.py |
| `Telemetry`, `TelemetryLaws` | benchmarks/harness/empirical.py and the whole pipeline |
| `ClaudeTransport` | benchmarks/harness/transport.py |
| `Quiescence` | benchmarks/harness/workspace_io.py |
| `ContextFormat`, `Cosine`, `Retrieval`, `Pareto` | benchmarks/s4/operationalization.py, benchmarks/s4/driver.py |
| `Coordination`, `Workers`, `Interleaving` | benchmarks/s3/driver.py, benchmarks/s3/empirical.py |
| `PactBench`, `TextEdit`, `Fingerprints`, `Trees` | benchmarks/pactbench/materialize.py |
| `S2Selection`, `S2Materialize`, `S2Laws`, `S2Success`, `S2Refusals` | benchmarks/s2/materialize.py |
| `Prelude`, `JsonValues`, `Rounding`, `Ordering`, `Paths` | shared values, JSON reads, `round`, `sorted`, pathlib |

## Where the code does not do what it promises unconditionally

For each of these there is an input on which the promise fails, and a theorem that says exactly when it holds.

- **Aggregation is a homomorphism only without rounding ties.** For a non-empty batch `ys`,
  `aggregate(xs + ys)` is the sum of the two aggregates for every `xs` if and only if no duration in `ys`
  lies exactly halfway between two units and either some cost in `ys` is absent or no cost in `ys` does
  (`SplitIsExactIffTieFree`; half a micro-dollar fails in `HalfMicroDollarSplitsInexactly`, and is harmless
  beside an absent cost in `AbsentCostHidesTies`). Adding an empty batch is neutral if and only if each of
  the three tags is truthy in some request or null in the last one (`EmptyBatchIsNeutral`; an empty provider
  is lost in `EmptyProviderIsLost`).
- **Valid requests can have an invalid total.** The total of admissible requests is admissible if and only
  if every request is fully metered or the first request that names a provider names the one that may
  withhold measurements (`TotalOfAdmissible`). The same condition decides the envelope (`EnvelopeAccepted`)
  and, for the cost alone, the wire (`WireRoundTrip`). A metered record of one provider before an unpriced
  one of the other fails both (`MixedProvidersInvalidTotal`, `MixedProvidersDoNotCross`), in the other order
  the total is valid. One shared provider is always enough.
- **Tool calls on the Claude path.** Each request is charged the tool count of the whole stream, so the
  aggregate is right if and only if there is one request or there are no tools (`ClaudeTotals`, fails in
  `ToolIsCountedTwice`). The Codex path counts each completion after the first accepted usage event once
  (`ToolCallsPartition`).
- **A Claude record on the v2 wire** comes back unchanged if and only if it wrote no cache and exposed its
  reasoning count (`ClaudeOnV2Wire`, fails in `CacheWriteIsNotCarried`).
- **`replace_text` rewrites line ends.** The file is read with newline translation. It comes out with its one
  match replaced and everything else as it was if and only if it held no carriage return
  (`ReplaceIsSplice`, fails in `CarriageReturnsAreRewritten`); what is spliced otherwise is the text as read.
- **Tree fingerprints do not determine the tree.** They separate fields by NUL and do not exclude NUL from
  contents. Another tree is digested as the same bytes if and only if the tree has two or more covered files,
  or one whose content holds, between two NULs, the path of a file that could follow it
  (`AmbiguousIffHiding`; the views it speaks of are exactly those of trees, by `PossibleViewsExist` and
  `ViewsArePossible`; `NulMakesFingerprintsAmbiguous` is an example). Among trees whose contents are free of
  NUL the bytes do determine the tree (`SerializationIsFaithful`).
- **The S2 verifier can refuse what the S2 writer wrote.** It accepts if and only if the schema accepts the
  manifest, the recorded Git blob is the registered one, the checkout is unchanged, and no two registered
  ids normalize to one projection path (`WrittenTreeVerifies`). A Hugging Face asset is acquired without a
  blob digest, so such a bed that registers one is written and then refused (`RegisteredBlobIsRefused`); so is
  a bed with the ids `a//b` and `a/b` (`AliasedTasksAreRefused`). Ids without a slash always have their own
  files (`PlainIdsAreDistinct`), and a plain bed verifies (`PlainBedVerifies`).
- **Final output.** A `turn/completed` whose `turn` is present and not an object leaves the final output
  empty, whatever the agent said (`FinalOutputIsLastSpeaker`, fails in `NonObjectTurnLosesOutput`).
- **Answering every request.** A usage notification on which the ledger raises is recorded among the events
  and handled no further. Over all recorded events, every message with an id and a method is answered exactly
  once if and only if the usage notifications parse and reconcile or the last event is no such message
  (`RecordedRequestsAnswered`, fails in `MalformedUsageGoesUnanswered`); over the handled events it always is
  (`EveryRequestRefusedOnce`).

## Model

| member | source | states |
|---|---|---|
| `CodexUsage.BreakdownRoundTrip` | benchmarks/harness/codex_usage.py:26-46 | every field of a breakdown is read from its own key, and a breakdown of non-negative counts is refused exactly when it caches more than its input |
| `CodexUsage.MissingCount` | benchmarks/harness/codex_usage.py:38-43 | a missing cache-write count reads as zero, any other missing count raises for that very field |
| `CodexUsage.BreakdownReadIff` | benchmarks/harness/codex_usage.py:26-46 | exactly what is read as a given breakdown: an object with these six counts under their keys, cache writes perhaps missing, and no more cached than input |
| `CodexUsage.DifferenceDecides` | benchmarks/harness/codex_usage.py:48-58 | a difference of totals is zero exactly on a repeat and equals `last` exactly on an advance by `last`, so the guards at lines 92 and 99 never fire |
| `CodexUsage.UsageLedger.Accept` | benchmarks/harness/codex_usage.py:88-105 | a repeat changes nothing and returns nothing, an advance by exactly `last` appends a numbered entry, anything else raises (backwards or mismatch, decided by the totals) and changes nothing |
| `CodexUsage.AcceptNotification` | benchmarks/harness/codex_usage.py:108-121 | the ledger after one message is the specified one, errors leave it unchanged, and what is returned is exactly what was appended |
| `CodexUsage.NotificationRoundTrip` | benchmarks/harness/codex_usage.py:110-121 | a well-formed usage notification is read back with `last` and `total` in their places |
| `CodexUsage.NotificationReadIff` | benchmarks/harness/codex_usage.py:110-121 | exactly what is read as a given notification, and that no usage message is passed over |
| `CodexUsage.NewTotalsComplete` | benchmarks/harness/codex_usage.py:91-94 | the positions kept from a stream miss none at which the total differs from the one reported before it |
| `CodexUsage.StepKeepsNumbering` | benchmarks/harness/codex_usage.py:101-105 | every notification keeps: entries numbered 1..n, each total the prefix sum of the lasts, running total the sum of all |
| `CodexUsage.LedgerExactness` | benchmarks/harness/codex_usage.py:88-105 | a stream is consumed without error if and only if each notification repeats the total before it or advances it by its own `last`; the accepted list is then the stream without repeats, numbered from 1, with prefix-sum totals, and the running total is the last one reported |
| `AgentMessages.MessagesAreHeard` | benchmarks/harness/codex_app_server.py:252-265 | deltas and completions are read with id and text in their places, and no other method touches the messages |
| `AgentMessages.BoardIsListing` | benchmarks/harness/codex_app_server.py:254-265 | after any interleaving the dictionary lists the ids in first-seen order, each with the text of its own effects |
| `AgentMessages.TextIgnoresOthers` | benchmarks/harness/codex_app_server.py:254-265 | the text of an item depends on its own deltas and completions only |
| `AgentMessages.LastListedCameLast` | benchmarks/harness/codex_app_server.py:282 | the last key of the dictionary is the item whose first effect came latest |
| `AgentMessages.FaithfulText` | benchmarks/harness/codex_app_server.py:258-265 | when each completed text equals its deltas so far, an item's text is all of its deltas |
| `AppServer.Connection.Read` | benchmarks/harness/codex_app_server.py:247-251 | one message is moved from the inbox to the events and accounted, with a usage mark at its own index exactly when the ledger accepted an entry |
| `AppServer.Connection.Answer` | benchmarks/harness/codex_app_server.py:266-268 | a message with id and method is recorded and refused once, any other is not answered |
| `AppServer.Connection.AwaitResponse` | benchmarks/harness/codex_app_server.py:332-355 | the loop computes the specified result and leaves the specified session behind, errors included |
| `AppServer.Connection.AwaitTurn` | benchmarks/harness/codex_app_server.py:243-285 | the main loop computes the specified turn and leaves the specified session behind, errors included |
| `AppServer.Run` | benchmarks/harness/codex_app_server.py:197-294 | a whole run equals its specification on every inbox: result, events, usage, refusals and outgoing messages |
| `AppServerSafety.RefusalIsErrorResponse` | benchmarks/harness/codex_app_server.py:268 | the refusal is an error response in the sense of section 5 of the JSON-RPC 2.0 specification: same id, an error with code and message, no result, no method |
| `AppServerSafety.TrackedIsReplay` | benchmarks/harness/codex_app_server.py:247-251 | consuming the events never raises if and only if every usage notification parses and the ledger accepts them in order, and then the two ledgers are equal |
| `AppServerSafety.TrackedMarks` | benchmarks/harness/codex_app_server.py:246-251 | usage marks are the accepted entries in order, at strictly increasing event indices of usage notifications, with those events' clock readings |
| `AppServerSafety.AwaitEndsAtFirstMatch` | benchmarks/harness/codex_app_server.py:343-355 | waiting ends at the first message with the awaited id, returns that message, and raises exactly its error payload |
| `AppServerSafety.ConverseEndsAtFirstCompletion` | benchmarks/harness/codex_app_server.py:246-285 | a turn that ends has consumed its events up to the first `turn/completed` and no further |
| `AppServerProtocol.RunCompletesIff` | benchmarks/harness/codex_app_server.py:197-294 | a run completes if and only if its inbox holds a first answer to request 1, then a first answer to request 2 that names a thread, neither an error, then a first completed turn, with all usage up to there parsing and reconciling and no malformed result for the turn |
| `AppServerProtocol.CompletedRunSends` | benchmarks/harness/codex_app_server.py:214-242 | read off the sent messages: a completed run opened the connection, announced itself, opened a thread with the configured model, provider, directory and policies, and opened a turn whose one text is the prompt, on the thread that the first answer to request 2 named |
| `AppServerProtocol.CompletedRunNamesTurn` | benchmarks/harness/codex_app_server.py:269-276 | the turn id is that of the completed turn, or else the one named last by a response to request 3, or else empty |
| `AppServerProtocol.TextsInOrder` | benchmarks/harness/codex_app_server.py:63-79 | an object gives its own text and then those under item, turn, content and parts, in this order |
| `AppServerProtocol.TextsOfList` | benchmarks/harness/codex_app_server.py:66-70 | a list gives the texts of its elements in order |
| `AppServerProtocol.OtherTextsAreIgnored` | benchmarks/harness/codex_app_server.py:71-79 | no other key and no other kind of value gives a text |
| `AppServerSafety.EveryRequestRefusedOnce` | benchmarks/harness/codex_app_server.py:246-285 | for every inbox, each handled message with id and method is answered exactly once, in order, by an error response and never a result; nothing else is answered; the events are a prefix of the inbox; only a usage notification that ended the run is recorded and not handled |
| `AppServerSafety.RecordedRequestsAnswered` | benchmarks/harness/codex_app_server.py:246-268 | for every inbox, each recorded message with id and method is answered exactly once, in order, by an error response if and only if the usage notifications parse and reconcile or the last event is no such message |
| `AppServerSafety.MalformedUsageGoesUnanswered` | benchmarks/harness/codex_app_server.py:248-249 | a usage notification without parameters that carries an id is recorded and never answered |
| `AppServerSafety.UsageAccountingIsExact` | benchmarks/harness/codex_app_server.py:246-251 | a run dies on usage if and only if the notifications it read do not parse or do not reconcile; otherwise its ledger is their replay and its marks are exact |
| `AppServerSafety.FinalOutputIsLastSpeaker` | benchmarks/harness/codex_app_server.py:254-282 | the final output is the text of the message that first appeared last, from its own effects only, and with faithful completions all of its deltas; empty when `turn/completed` carries a non-object turn; without any message, the last text inside the turn object, or empty |
| `AppServerSafety.NonObjectTurnLosesOutput` | benchmarks/harness/codex_app_server.py:272-282 | a completed run in which the agent spoke and the final output is empty |
| `TokenModel.AggregateTelemetry` | benchmarks/harness/execution.py:85-92 | the loop is the left fold of `+` from the empty usage |
| `TokenModel.CountsAreSums` | benchmarks/harness/model.py:47-69 | every count of the total is the sum of that very count over the requests |
| `TokenModel.MeasuresAreNearSums` | benchmarks/harness/model.py:54-68 | duration and cost of the total lie within half a unit per request of the exact sums |
| `TokenModel.AggregateOfConcat` | benchmarks/harness/execution.py:85-92 | a batch split anywhere aggregates to the sum of its parts when no duration of the later part is a tie and, unless a cost of it is absent, no cost is |
| `TokenModel.SplitIsExactIffTieFree` | benchmarks/harness/model.py:47-69 | splitting a batch off is exact for every batch before it if and only if no duration of it is a rounding tie and either some cost of it is absent or no cost of it is a tie |
| `TokenModel.HalfMicroDollarSplitsInexactly` | benchmarks/harness/model.py:54 | a concrete request for which the split is inexact |
| `TokenModel.AbsentCostHidesTies` | benchmarks/harness/model.py:54 | a batch with a cost tie and an absent cost, for which the split is exact after every batch |
| `TokenModel.EmptyBatchIsNeutral` | benchmarks/harness/model.py:64-66 | adding an empty batch is exact if and only if each tag is truthy in some request or null in the last |
| `TokenModel.EmptyProviderIsLost` | benchmarks/harness/model.py:65 | a request with an empty provider whose total loses it to an empty batch |
| `TokenModel.TagsOfTotal` | benchmarks/harness/model.py:64-66 | each tag of the total is that of the first request with a truthy one, or else that of the last request |
| `TokenModel.AbsenceIsExact` | benchmarks/harness/model.py:54-62 | cost and reasoning count are absent from the total exactly when absent from some request |
| `TokenModel.SharedTagsAreKept` | benchmarks/harness/model.py:64-66 | pricing, provider and model shared by all requests are those of the total |
| `Execution.NoProblemIffAdmissible` | benchmarks/harness/execution.py:95-127 | a record raises no problem if and only if it is non-negative, consistent where its reasoning count is present, and metered or of the provider that may withhold |
| `Execution.TotalOfAdmissible` | benchmarks/harness/execution.py:85-127 | the total of admissible requests is admissible if and only if all are metered or the first that names a provider names the withholding one |
| `Execution.MixedProvidersInvalidTotal` | benchmarks/harness/execution.py:110-113 | two admissible requests with an inadmissible total, which the envelope refuses; in the other order the total is admissible |
| `Execution.SharedProviderIsEnough` | benchmarks/harness/execution.py:85-127 | admissible requests that share one provider have an admissible total |
| `Execution.ValidateEnvelopeTelemetry` | benchmarks/harness/execution.py:156-163 | the telemetry problems of an envelope, in source order |
| `Execution.EnvelopeAccepted` | benchmarks/harness/execution.py:156-163 | for every total: an envelope raises no telemetry problem if and only if its total is the sum of its requests, each request is admissible and counts one, and all are metered or the first that names a provider names the withholding one |
| `Execution.EnvelopeProblemsAreFaults` | benchmarks/harness/execution.py:156-163 | every problem is reported at a request that is not acceptable, or at a total that is inadmissible or not the sum |
| `Execution.FaultsAreReported` | benchmarks/harness/execution.py:97-126 | every fault that a record can have is reported under the name of its own field |
| `Runners.UsageRoundTrip` | benchmarks/harness/execution.py:221-268 | an emitted record is parsed back unchanged if and only if it is admissible, has a reasoning count, and its cached and adjusted tokens balance its input |
| `Runners.AcceptedRecordIsFaithful` | benchmarks/harness/execution.py:221-268 | an accepted record is valid, balances its input, and carries what its object says under each key |
| `Runners.CarriedRecordIsAccepted` | benchmarks/harness/execution.py:221-268 | conversely, an object that carries a valid and balanced record is parsed as that record |
| `Runners.RecordRefusalsInOrder` | benchmarks/harness/execution.py:223-244 | which fault of a record is reported first: no object, a missing field, a count that is no integer, more cached than input, a wrong adjustment |
| `Runners.ParseTelemetryV2` | benchmarks/harness/runners.py:281-312 | the telemetry section returns or raises as specified, the first bad request deciding |
| `Runners.AcceptedTelemetryIsTotalled` | benchmarks/harness/runners.py:281-312 | in whatever telemetry is accepted each request is the record parsed at its place and the total is their sum; without requests the run was not completed and the total is zero |
| `Runners.TotalledTelemetryIsAccepted` | benchmarks/harness/runners.py:281-312 | conversely, telemetry of requests that parse, with their sum as its total, is accepted |
| `Runners.RequestsRoundTrip` | benchmarks/harness/runners.py:284-289 | an emitted list of requests is parsed back unchanged if and only if each of its records is wire-exact |
| `Runners.WireRoundTrip` | benchmarks/harness/codex_real_runner_v2.py:545-585 | the receiver returns exactly the emitted requests and aggregate, raising nothing, if and only if every request is wire-exact and either all have a cost or the first that names a provider names the one that may withhold it |
| `Runners.MixedProvidersDoNotCross` | benchmarks/harness/runners.py:295-304 | two wire-exact requests that do not cross together with their aggregate |
| `Runners.ZeroTelemetryRoundTrip` | benchmarks/harness/codex_real_runner_v2.py:411-421 | the zero record of a failed run is accepted unchanged, and refused for a completed run |
| `Telemetry.ToolCallCount` | benchmarks/harness/empirical.py:55-64 | the tool completions strictly between two event indices |
| `Telemetry.TelemetryFromAppRun` | benchmarks/harness/empirical.py:87-126 | the requests and their aggregate, or the first applicable error |
| `TelemetryLaws.EachRequestIsCharged` | benchmarks/harness/empirical.py:97-125 | request j has the tokens of its own mark, the tool completions strictly between mark j and the next one or the end of the run, and the time since mark j-1 to half a unit |
| `TelemetryLaws.ToolKinds` | benchmarks/harness/empirical.py:37-39 | a completed item is a tool use exactly if it is of one of five kinds |
| `TelemetryLaws.RunIsAccountedIff` | benchmarks/harness/empirical.py:95-104 | a completed run is accounted if and only if the server reported a new total and the task tokens fit into the input of the first request |
| `TelemetryLaws.Conservation` | benchmarks/harness/empirical.py:97-126 | the aggregate equals the ledger's running total on input, cached, cache-write, output and reasoning tokens; context + task = input; cache-adjusted + cached = input; task tokens are charged once |
| `TelemetryLaws.ToolCallsPartition` | benchmarks/harness/empirical.py:55-64 | the aggregate tool calls are the tool completions after the first accepted usage event, each counted once |
| `TelemetryLaws.IntervalsTelescope` | benchmarks/harness/empirical.py:106-107 | on non-decreasing clock readings the unrounded intervals sum to the last one |
| `TelemetryLaws.ElapsedBound` | benchmarks/harness/empirical.py:99-125 | the aggregate duration of n rounded intervals differs from the last observed time by at most n × 0.0005 ms |
| `TelemetryLaws.RequestsAreFlawless` | benchmarks/harness/empirical.py:108-125 | every record made from an accounted run is valid, wire-exact, metered and carries the run's tags |
| `TelemetryLaws.FlawlessTelemetryIsAccepted` | benchmarks/harness/execution.py:156-163 | flawless requests with their aggregate raise no envelope problem and cross the wire unchanged |
| `TelemetryLaws.PipelineIsExact` | benchmarks/harness/codex_real_runner_v2.py:543-585 | for every inbox of a completed run: the emitted aggregate charges exactly the last total the server reported, over as many requests as there were new totals, counts each later tool completion once, keeps the tags, raises no envelope problem and reaches the parser unchanged |
| `ClaudeTransport.CacheCreationTokens` | benchmarks/harness/transport.py:133-152 | the first direct name decides, otherwise the sum over all nested input-token keys, in whatever order they are visited |
| `ClaudeTransport.NestedCacheCounts` | benchmarks/harness/transport.py:141-152 | the counts of both cache lifetimes are added, other nested values are not, and the second spelling is not looked at beside the first |
| `ClaudeTransport.Account` | benchmarks/harness/transport.py:304-383 | the accounting loop returns the specified requests with their aggregate, or the error of the first bad request |
| `ClaudeTransport.RequestAcceptedIff` | benchmarks/harness/transport.py:322-345 | a request is accepted if and only if its usage object holds valid counts under the first of their names, the task tokens fit into their sum, and its cost is absent or a non-negative number |
| `ClaudeTransport.RequestsAreRecorded` | benchmarks/harness/transport.py:322-382 | every field of every request comes from its own usage object, under the first of its names |
| `ClaudeTransport.TotalCostIsNeverSplit` | benchmarks/harness/transport.py:343-350 | a request carries its own cost, or that of the stream if it is the only one, or none; with two or more requests the aggregate has a cost exactly when each reports one, and then it is their sum to half a micro-dollar per request |
| `ClaudeTransport.ReportedIsRecorded` | benchmarks/harness/transport.py:322-382 | each fully reported count and cost is recorded in its own field |
| `ClaudeTransport.ClaudeEnvelopeAccepted` | benchmarks/harness/transport.py:322-383 | whatever this transport accepts raises no telemetry problem in the envelope |
| `ClaudeTransport.ClaudeTotals` | benchmarks/harness/transport.py:365-383 | conservation on this path, task tokens and duration charged once, and the exact condition for the aggregate tool count to be right |
| `ClaudeTransport.ToolIsCountedTwice` | benchmarks/harness/transport.py:380 | a stream of two requests and one tool use whose aggregate counts two |
| `ClaudeTransport.ClaudeOnV2Wire` | benchmarks/harness/execution.py:243-262 | the v2 wire carries such a record unchanged if and only if it wrote no cache and exposed its reasoning count |
| `ClaudeTransport.CacheWriteIsNotCarried` | benchmarks/harness/execution.py:243-244 | a record that wrote one token to the cache and is not parsed back |
| `Quiescence.ReadBytes` | benchmarks/harness/workspace_io.py:267-355 | bad bounds are refused; otherwise the last attempt decides the result, every earlier one failed transiently before the deadline, attempts stay within the cap, and with a respected clock the deadline error is raised only at or after the deadline |
| `Quiescence.RetriesTakeTime` | benchmarks/harness/workspace_io.py:325-327 | after i-1 retries the clock has advanced by i-1 full intervals or has reached the deadline |
| `Quiescence.DeadlineNotEarly` | benchmarks/harness/workspace_io.py:274-276 | with a monotone clock and sleeps that never return early, the attempt cap cannot be reached before the deadline |
| `Quiescence.IdealAttempts` | benchmarks/harness/workspace_io.py:275-327 | with exact sleeps and instant reads of a locked file exactly ceil(D/I)+1 attempts are made, the last one exactly at the deadline |
| `ContextFormat.FormatFiles` | benchmarks/s4/operationalization.py:104-123 | for every file list and limit the payload is exactly the first `limit` characters of the full concatenation, and the flag is true exactly when the full text is longer |
| `ContextFormat.TextOfTwo` | benchmarks/s4/operationalization.py:108-109 | the full text of two files, each under its own heading, in the order given |
| `Cosine.HashedEmbedding` | benchmarks/s4/operationalization.py:130-135 | the loop builds the specified sparse vector |
| `Cosine.EmbeddingCounts` | benchmarks/s4/operationalization.py:130-135 | a bucket of an embedding holds the number of tokens that hash to it, and is present exactly when that is positive |
| `Cosine.EmbeddingOfConcat` | benchmarks/s4/operationalization.py:130-135 | buckets add under concatenation of tokens |
| `Cosine.MassIsTokenCount` | benchmarks/s4/operationalization.py:130-135 | the buckets sum to the number of tokens |
| `Cosine.SparseDot` | benchmarks/s4/operationalization.py:139 | the sum over one side's dictionary items, in any order, is the dense inner product |
| `Cosine.CauchySchwarz` | benchmarks/s4/operationalization.py:138-141 | the squared numerator never exceeds the product of the squared norms |
| `Cosine.ScoreInUnitInterval` | benchmarks/s4/operationalization.py:138-141 | the score lies in [0, 1] |
| `Cosine.ScoreSymmetric` | benchmarks/s4/operationalization.py:138-141 | the score is symmetric although each side iterates different keys |
| `Cosine.ScoreOfSelf` | benchmarks/s4/operationalization.py:138-141 | a text scores one against itself, or zero if it has no tokens |
| `Cosine.ScoreIgnoresRepetition` | benchmarks/s4/operationalization.py:138-141 | writing a text twice changes none of its scores |
| `Cosine.PositiveIffSharedBucket` | benchmarks/s4/operationalization.py:138-141 | the score of two texts is positive exactly when some of their tokens share a bucket |
| `Cosine.SquaredCosine` | benchmarks/s4/operationalization.py:138-141 | three sums over dictionary items give the squared score |
| `Retrieval.RetrievalIgnoresOrder` | benchmarks/s4/operationalization.py:144-153 | on distinct paths, ranking and retrieval do not depend on the order of the files |
| `Retrieval.SelectionIsRankPrefix` | benchmarks/s4/operationalization.py:146-153 | the selection is a prefix of a ranking of all the files by score and then by path; it holds the files with a positive score, up to eight, and only if there is none the first eight of all |
| `Retrieval.MemoryStore.Load` | benchmarks/s4/operationalization.py:180-182 | on any table, loading succeeds exactly when no path occurs twice or is taken; the files are then added, and otherwise exactly those before the first taken path are |
| `Retrieval.InsertedRepresents` | benchmarks/s4/operationalization.py:178-182 | the rows a table held and the files loaded into it are together exactly its new rows |
| `Retrieval.MemoryStore.Retrieve` | benchmarks/s4/operationalization.py:184-186 | retrieval from the table equals direct retrieval from every list that represents it |
| `Retrieval.MemoryRetrieval` | benchmarks/s4/operationalization.py:261-268 | regime C5 selects exactly what regime C3 selects, in the same order, or fails exactly on a repeated path |
| `Pareto.ParetoFrontier` | benchmarks/s4/driver.py:102-114 | the nested loops compute the frontier |
| `Pareto.FrontierIsExact` | benchmarks/s4/driver.py:102-114 | the frontier holds exactly the valid points that no valid point beats, each as often as it was given, by cost and, for equal points, by condition |
| `Pareto.MembersAreNotDominated` | benchmarks/s4/driver.py:107-113 | no valid point dominates a member |
| `Pareto.ExcludedIsDominatedByMember` | benchmarks/s4/driver.py:107-113 | every excluded valid point is dominated by some member |
| `Pareto.EmptyFrontier` | benchmarks/s4/driver.py:102-114 | the frontier is empty if and only if there is no valid point |
| `Pareto.SuccessRisesWithCost` | benchmarks/s4/driver.py:114 | along the output cost and success never decrease, and equal cost means equal success |
| `Pareto.FrontierOfParts` | benchmarks/s4/driver.py:102-114 | frontier(A + B) = frontier(frontier(A) + frontier(B)), as sequences |
| `Pareto.FrontierIsIdempotent` | benchmarks/s4/driver.py:102-114 | taking the frontier twice changes nothing |
| `Coordination.ScoreCoordination` | benchmarks/s3/driver.py:58-83 | the dictionary-building loops compute the score defined by sets of edited paths, digests, tasks and workers |
| `Coordination.ScoreIsZeroExactly` | benchmarks/s3/driver.py:58-83 | no conflict, no duplicate and no collision exactly when edits of one path agree on the digest, events of one logical task come from one worker, and every edit lies in the scope of its worker; joint success exactly when there are results and all succeed |
| `Coordination.RatesAreShares` | benchmarks/s3/driver.py:64-82 | each rate is its count over the number of edited paths, named tasks and edits, to half a thousandth, and the collisions are the edits outside their scope |
| `Coordination.RatesInUnitInterval` | benchmarks/s3/driver.py:80-82 | for arbitrary events all three rates lie in [0, 1] |
| `Coordination.ScoreIgnoresEventOrder` | benchmarks/s3/driver.py:58-83 | the score depends on the events only as a multiset |
| `Coordination.ScoreIgnoresResultOrder` | benchmarks/s3/driver.py:58-83 | the score does not depend on the order of the results |
| `Coordination.DisjointScopesPreventClobbering` | benchmarks/s3/driver.py:60-74 | with disjoint scopes and one version per worker and path, no scope collision implies no conflicting edit |
| `Workers.TakeSnapshot` | benchmarks/s3/empirical.py:52-60 | the snapshot holds the digest of exactly the files outside `.git` |
| `Workers.SnapshotSkipsGit` | benchmarks/s3/empirical.py:52-60 | a file is in the snapshot, with its digest, exactly if no component of its path is `.git` |
| `Workers.DiffEvents` | benchmarks/s3/empirical.py:142-153 | the events are those of the sorted union of both snapshots |
| `Workers.EventsReplayDiff` | benchmarks/s3/empirical.py:142-153 | applying the edit events to the "before" snapshot, a missing digest being a deletion, gives exactly the "after" snapshot |
| `Workers.OneEventPerChange` | benchmarks/s3/empirical.py:142-153 | there is exactly one event per changed path, numbered 0 to n-1, with the new digest |
| `Interleaving.ScheduleIsolatesWorkers` | benchmarks/s3/empirical.py:113-188 | under every schedule of single steps, file reads of the snapshots included, each worker is, in its state and its root, where it would be alone after its own steps |
| `Interleaving.DoneReportsTruly` | benchmarks/s3/empirical.py:113-155 | under every schedule a worker that is done answered, on a transcript of its own looks and edits, under another name, or reports its own name, the diff of its root with the task of its reply on every event, the verdict of its own check on that reply and root, and a failure class exactly if that is negative |
| `Interleaving.ReportReplays` | benchmarks/s3/empirical.py:142-153 | applying the events of a report to the snapshot before gives the snapshot after |
| `Interleaving.CaseReportsTruly` | benchmarks/s3/empirical.py:178-188 | under every schedule a completed case is scored from two true reports, with joint success exactly when both verdicts are positive, or raised for a worker that answered under another name, worker-a first |
| `Interleaving.CaseCompletes` | benchmarks/s3/empirical.py:113-188 | if both workers come to verdicts, every schedule that gives each of them enough steps completes the case and reports joint success exactly when both are positive |
| `Interleaving.SchedulesAgree` | benchmarks/s3/empirical.py:178-188 | any two interleavings in which both workers finish give the same results, score and disk |
| `Interleaving.InterleavingIsSequential` | benchmarks/s3/empirical.py:178-188 | for every interleaving in which both finish, running worker-a to its end and then worker-b finishes too, with the same results, score and disk |
| `Interleaving.ScopedWorkersNeverClobber` | benchmarks/s3/empirical.py:113-188 | for every interleaving with disjoint scopes, a score without scope collisions has no conflicting edits |
| `TextEdit.ReplaceOnce` | benchmarks/pactbench/materialize.py:174-178 | text counted once is replaced at exactly that match, as prefix + new + suffix |
| `TextEdit.CountedOnceIff` | benchmarks/pactbench/materialize.py:175-176 | a part is counted once exactly when it occurs at one position, nowhere before, and nowhere after that match |
| `TextEdit.ReadTextIsExact` | benchmarks/pactbench/materialize.py:174 | reading as text is the identity exactly on files without a carriage return |
| `PactBench.ReplaceIsSplice` | benchmarks/pactbench/materialize.py:166-178 | a successful replace splices the new text in at the one match of the text as read and changes no other file; the file itself comes out spliced, all else in it unchanged, if and only if it held no carriage return |
| `PactBench.WriteAndAppendAreExact` | benchmarks/pactbench/materialize.py:179-192 | a write leaves exactly the given text at a new path, an append adds it to an existing file, and no other file changes |
| `PactBench.CarriageReturnsAreRewritten` | benchmarks/pactbench/materialize.py:174-178 | a concrete file whose line end changes outside the match |
| `PactBench.OperationsAreFramed` | benchmarks/pactbench/materialize.py:158-194 | after any successful list of operations every file is still there, only replace and append targets differ, no write target existed before, and each new file was written |
| `PactBench.ForgedOnlyAdd` | benchmarks/pactbench/materialize.py:196-203 | forged records only add files, each with its content, where nothing was |
| `PactBench.SetupIsFramed` | benchmarks/pactbench/materialize.py:157-203 | the frame of a whole successful setup; forged records come after all operations, none of which touches their files, and every new file was written or forged |
| `PactBench.OperationSucceedsIff` | benchmarks/pactbench/materialize.py:158-194 | an operation succeeds if and only if it names a path and a kind, and its target is there with one expected match, or free, or there to append to |
| `PactBench.OperationsSucceedIff` | benchmarks/pactbench/materialize.py:158-194 | a list of operations succeeds if and only if each of them is applicable to what those before it left |
| `PactBench.ForgedSucceedsIff` | benchmarks/pactbench/materialize.py:196-203 | a forged record is added if and only if it has a path and a text and its place is free |
| `PactBench.Workspace.ApplySetup` | benchmarks/pactbench/materialize.py:157-203 | the setup loops return or raise as specified and leave exactly the tree reached before the raise |
| `PactBench.SetupLeavesLastGood` | benchmarks/pactbench/materialize.py:157-203 | whatever becomes of a setup, it leaves the tree of its longest successful part |
| `PactBench.Workspace.RenderInPlace` | benchmarks/pactbench/materialize.py:236-284 | rendering returns or raises as specified and leaves exactly the tree reached |
| `PactBench.RenderLeaves` | benchmarks/pactbench/materialize.py:236-284 | a rendering that fails half-way leaves exactly the overlay files that came before the blocked one |
| `PactBench.RenderWritesOverlay` | benchmarks/pactbench/materialize.py:260-284 | rendering writes the context file, for governed arms also the two governance files, and nothing else |
| `PactBench.RenderSucceedsIff` | benchmarks/pactbench/materialize.py:236-284 | rendering succeeds if and only if the arm is known, the fixture readable and the overlay not blocked |
| `PactBench.RenderKeepsFunctionalView` | benchmarks/pactbench/materialize.py:206-284 | rendering any arm leaves the functional view unchanged |
| `PactBench.TreeFingerprint` | benchmarks/pactbench/materialize.py:216-224 | the digest is fed each covered path and content in sorted order |
| `PactBench.ArmsShareFunctionalFingerprint` | benchmarks/pactbench/materialize.py:304-317 | two arms of one case carry the same functional fingerprint, that of the seed and of both rendered trees |
| `PactBench.MaterialIsSeedAndArm` | benchmarks/pactbench/materialize.py:292-317 | a case materializes if and only if its setup and then its rendering succeed; it is the rendered seed with the fingerprints of its two views |
| `PactBench.MaterializeCase` | benchmarks/pactbench/materialize.py:304-317 | the check that rendering changed functional state never fails |
| `Fingerprints.SerializationIsFaithful` | benchmarks/pactbench/materialize.py:216-224 | on trees whose contents are free of NUL the digested bytes are equal exactly when the trees are |
| `Fingerprints.FingerprintSeesTree` | benchmarks/pactbench/materialize.py:206-224 | trees without NUL are fed alike exactly when they agree on every file outside `.git`, and for the functional view outside `AGENTS.md` and `governance` |
| `Fingerprints.AmbiguousIffHiding` | benchmarks/pactbench/materialize.py:206-224 | another tree is digested as the same bytes if and only if the tree has two or more covered files, or one whose content holds the path of a possible later file between two NULs |
| `Fingerprints.PossibleViewsExist` | benchmarks/pactbench/materialize.py:206-213 | every view with allowed names and no file below another is the view of some tree |
| `Fingerprints.ViewsArePossible` | benchmarks/pactbench/materialize.py:206-213 | every tree with allowed names has such a view |
| `Fingerprints.NulMakesFingerprintsAmbiguous` | benchmarks/pactbench/materialize.py:220-223 | two different trees, one with NUL in a file, are digested as the same bytes |
| `S2Selection.TallyRows` | benchmarks/s2/materialize.py:398-409 | the row loop stops exactly when some registered id repeats, otherwise counts and finds each registered id |
| `S2Selection.SelectRecords` | benchmarks/s2/materialize.py:392-426 | selection returns or raises as specified, in source order |
| `S2Refusals.CorruptedBedsAreInvalid` | benchmarks/s2/materialize.py:117-148 | a valid bed, and changes of its id, revision, digest, path and adapter that make it invalid |
| `S2Refusals.CorruptedSourcesAreInvalid` | benchmarks/s2/materialize.py:136-146 | every bed becomes invalid with another scheme, source type or format, or as a Git bed without a blob |
| `S2Refusals.CorruptedIdsAreInvalid` | benchmarks/s2/materialize.py:127-130 | every bed becomes invalid with no ids, an empty, a repeated or a descending one |
| `S2Selection.SelectionExact` | benchmarks/s2/materialize.py:397-426 | given a valid bed and schema, selection succeeds if and only if every registered id occurs once and its row adapts to that id; it yields one record per id in registered order, with the sorted schema and the digest of bed, record and row |
| `S2Selection.SelectionIgnoresRowOrder` | benchmarks/s2/materialize.py:401-425 | records and errors do not depend on the order of the rows |
| `S2Materialize.WriteProjections` | benchmarks/s2/materialize.py:581-599 | the writing loop leaves the specified tree and collects exactly one manifest entry per record |
| `S2Materialize.VerifyProjections` | benchmarks/s2/materialize.py:719-743 | the verification loop rebuilds the entries that the manifest must hold, or raises as specified |
| `S2Materialize.MaterializeBed` | benchmarks/s2/materialize.py:644-655 | materialization from the acquired asset on, with its raises in source order |
| `S2Materialize.VerifyMaterialization` | benchmarks/s2/materialize.py:673-765 | verification, with its raises in source order |
| `S2Laws.RefusalsInOrder` | benchmarks/s2/materialize.py:721-727 | which change of a task is reported first: no entry, another record digest, a refused file name |
| `S2Laws.PlainIdsAreDistinct` | benchmarks/s2/materialize.py:583-586 | distinct ids without a slash always get distinct projection files, each under its own name |
| `S2Laws.SlashesAliasTasks` | benchmarks/s2/materialize.py:583-586 | two different ids, in registered order, that lead to one projection file |
| `S2Laws.WrittenTreeVerifies` | benchmarks/s2/materialize.py:673-765 | the verifier accepts a written tree if and only if schema, blob, checkout and distinct projection paths hold, and then returns the written manifest |
| `S2Refusals.PlainBedVerifies` | benchmarks/s2/materialize.py:639-765 | a bed of one task without a registered blob is written and accepted |
| `S2Refusals.RegisteredBlobIsRefused` | benchmarks/s2/materialize.py:207-216 | a Hugging Face bed that registers a blob digest is written and refused |
| `S2Refusals.AliasedTasksAreRefused` | benchmarks/s2/materialize.py:583-591 | a bed of two ids that share a projection file is written and refused |
| `S2Laws.AcceptedTreeIsExact` | benchmarks/s2/materialize.py:673-765 | in an accepted tree every registered id, in order, has an entry that repeats its recomputed record and two files that hold that record field by field, the first without either patch at any position; and the manifest tells the truth about version, source, asset, checkout, tasks, preflight and every field of the fingerprint basis |
| `S2Laws.LeakIsOccurrence` | benchmarks/s2/materialize.py:473-476 | the leak check finds a patch exactly when it is not empty and occurs in the serialized projection at some position |
| `S2Laws.WrittenTreeHoldsNoPatch` | benchmarks/s2/materialize.py:582-599 | a bed is written only if no serialized model-facing projection holds either patch of its record at any position |
| `S2Success.PlainBedMaterializesIff` | benchmarks/s2/materialize.py:639-655 | for ids without a slash and a fresh or equally laid out tree, a bed is written if and only if it is valid, its asset has the registered digest and parses, its records are selected, resolve, and do not show their patches |
| `S2Laws.AcceptedTreesAgree` | benchmarks/s2/materialize.py:711-765 | two accepted trees of one bed agree on fingerprint and projections if equal digests of their assets mean equal assets |
| `Paths.SafeRelativeIsNormal` | benchmarks/s2/materialize.py:86-90 | whatever path is accepted consists of non-empty names other than `.` and `..`, without slashes |
| `Paths.PosixRoundTrip` | benchmarks/s2/materialize.py:532-536 | a normal path written as a POSIX string is accepted and read back unchanged |
| `Prelude.ContainsIffOccurs` | benchmarks/s2/materialize.py:475 | a part is contained in a text exactly when it occurs at some position |
| `Ordering.SortIgnoresOrder` | benchmarks/s4/operationalization.py:146-149 | lists with distinct keys and the same elements sort alike |
| `Ordering.SortClass` | benchmarks/s4/driver.py:114 | sorting is stable: elements of one key keep their order |

## Left out

Deliberately weaker or reshaped members:

- AppServer.Run: the process, its pipes and the timed reads are an inbox of messages with clock readings, and the end of the inbox is both a closed stream and an expired deadline; the turn id stays a JSON value instead of its `str()`, and elapsed times, lifecycle evidence and the two kept responses are not part of the result.
- Cosine.SquaredCosine: the source divides by a product of two square roots; the model compares squares, which order the non-negative scores alike in exact arithmetic.
- TokenModel.AggregateTelemetry: durations and costs are exact reals rounded half to even, not binary floating point; not-a-number and infinities are absent.
- Execution.ValidateEnvelopeTelemetry: tags are compared as JSON values, while Python equates `True`, `1` and `1.0`; the rest of `validate_envelope` is a list of field checks.
- Runners.ParseTelemetryV2: wrong JSON types of `requests`, `tool_calls`, `usd` and `elapsed_ms` are one refusal instead of the validator's messages; the rest of `parse_response_v2` is not modelled, nor is `parse_response`.
- Telemetry.TelemetryFromAppRun: the tokenizer's count of the prompt is a given number, and the provider-usage evidence is left out.
- ClaudeTransport.Account: starts from the usage objects found in the stream; model identity, result events, the raw-usage evidence and `_tool_count` are given or left out. The transport's constructor admits one provider, so the provider is a constant.
- Quiescence.ReadBytes: the reader, the error classification and the clock are an environment; path validation and the diagnostic records are left out.
- Coordination.ScoreCoordination: matching a path against the scope patterns is a given predicate, not `fnmatch`.
- Interleaving.InterleavingIsSequential: workers are values in a state machine over their steps, and a worker sees only its own root; listing a root is one step, reading one file is one step, and the objective check only reads. The copying of the workspaces, `git status`, captures and a missing executor are left out.
- PactBench.Workspace.ApplySetup: contents are characters and line ends are those of POSIX; `setup` is given as two lists, and a failed `mkdir` or write leaves the tree as it was.
- PactBench.Workspace.RenderInPlace: the texts to render are a given function of `fixture.json`, since only where they go matters.
- S2Selection.SelectRecords: the field checks of the two row adapters and the record digest are given functions, and the errors carry no message.
- S2Materialize.MaterializeBed: the tree is a value passed from step to step, so a raise half-way leaves no tree; acquisition is left out, the commit lookup is a predicate, and constant manifest fields are covered by the schema predicate.
- S2Materialize.VerifyMaterialization: the walk for forbidden keys in a stored model projection is left out, because a projection with any other key differs from the recomputed one and is refused all the same, with another error.
- S2Laws.AcceptedTreesAgree: digest collisions are excluded by hypothesis, as SHA-256 is a given function.

Not modelled:

- Process spawning, threads for timed reads, Windows access control, Git and network acquisition.
- `tiktoken`, `jsonschema`, SHA-256, pyarrow, SQLite itself and JSON text: given functions or plain maps.
- `scaling_curve`, `aggregate_observation`, `analyze`, `_summary`, `_normalize` and the other S4 regimes: single passes without an invariant to keep.
- The audit of registered sets, `graders.py`, `grader_v2.py`, the S5 and S6 studies, the drift harness, the fixtures and `unitconv.py`: finite tables or code outside this core.
- UTF-8 encoding, symbolic links and case-insensitive file systems.
