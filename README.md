# Brand-visibility run tracking, modelled in Dafny

This project models the run-tracking core of a brand-visibility checker.

## How a run works in the source

A run gets a brand context. Then it gets a set of questions that must not name the brand. Then every question is put to every model of a roster three times. Each of these probes stores one answer record under a key of its own, and a detector decides whether the brand is mentioned in the answer and at which position.

A status route reads the run back from the store and derives its stage. A polling hook asks that route about a run every two seconds until the run completes or five minutes pass. The result view turns the stored answers into one row per (question, model) pair.

## What the model covers

- `Records` holds the stored records and the `RunStatus` snapshot (lib/upstash.ts). It also holds the shapes in which foreign calls answer: a value, or a thrown `Error` / non-`Error`.
- `ProbeRecords` is shared by the probe route and the command-line agent. It holds:
  - the storage key `runId:questionId:answer<run>:<model with "/" → "_">`;
  - the success and failure records;
  - the try/catch that decides which record is written, where a throwing success write falls into the catch.
- `CheckVisibilityRoute` is the probe route:
  - field validation by JavaScript truthiness;
  - fence cleaning of the detector's text;
  - the substring fallback when parsing fails;
  - the 200/400/500 answers.
- `CheckStatusRoute` is the status route:
  - the loop that keeps the object values (a `method` with its invariant);
  - the stage precedence chain;
  - the snapshot.
- `Aggregation` is the result view: the nested loops (a `method`) and the per-pair statistics (functions). The rounded mean is exact integer arithmetic: `Math.round(s / n)` is `(2s + n) div (2n)` for `n > 0`.
- `AgentFlow` is the command-line agent:
  - the brand check the question generator must pass;
  - the question × model × repetition fan-out;
  - one probe with its store write;
  - the settled outcomes and the summary counts.
- `Polling` is the polling hook, in two forms:
  - pure step functions over a `PollState`;
  - a `PollingController` class whose fields are the hook's refs and its parent's `isRunning`, and whose methods are proved to perform exactly those steps.
- `Text` and `Seqs` are helpers:
  - substring search, ASCII lowercasing, the regex deletion `replace(/tok\n?/g, "")` and `trim`;
  - decimal printing and parsing;
  - generic `filter` and `map`.

## Behaviour the model follows as the code has it

- The status route hard-codes 27 expected answers, although a run's size is `questions × models × 3`.
  - More than 27 answers reads as `pending`, unless a context is stored without questions, which reads as `context` (`PendingBeyondExpected`).
  - A run with a context and 27 answers but no stored questions reads as `context`.
- The stage tests use the raw truthiness of the questions value, while the snapshot keeps only an array. So a truthy non-array value blocks `context` yet shows no questions (`NonArrayQuestionsBlockContext`).
- `run = 0` is rejected by the probe route's truthiness test (`RunZeroIsRejected`).
- Model ids that differ only in `/` against `_` share a storage key (`SanitizedModelsShareKey`).
- A detector reply parsed without a `position` field leaves the position undefined, not null.
  - The result view's `!== null` filter lets such a record through, and `|| 0` adds 0 to the sum.
  - So positions 4 and "absent" average to 2 (`AbsentPositionCountsAsZero`).
  - Positions are therefore three-valued in the model: null, absent, or a number.
- A running hook whose run id changes keeps its old start time (`RunningKeepsWindow`).

## Model

| member | source | states |
|---|---|---|
| Text.Contains | app/api/check-visibility/route.ts:53 | true exactly when the pattern occurs at some index of the text |
| Text.ContainsIgnoringCase | app/api/check-visibility/route.ts:53 | `answer.toLowerCase().includes(brand.toLowerCase())`: ASCII-lowercases both sides and searches with `Contains`, whose contract says what a match is |
| Text.RemoveToken | app/api/check-visibility/route.ts:45-46 | the global deletion of a token with one optional newline after it. The result is never longer than the input; `RemoveTokenAtOccurrence` and `RemoveTokenKeepsPrefix` state what happens at and before an occurrence |
| Text.RemoveTokenAtOccurrence | app/api/check-visibility/route.ts:45-46 | after a prefix free of the token's first character, an occurrence goes together with one newline right after it; the prefix is kept and the deletion resumes after the removed text |
| Text.RemoveTokenKeepsPrefix | app/api/check-visibility/route.ts:45-46 | text free of the token's first character passes through the deletion unchanged |
| Text.TrimDropsTrailingWhitespace | app/api/check-visibility/route.ts:47 | trimming ignores trailing whitespace |
| Text.TrimStart | app/api/check-visibility/route.ts:47 | the result is a suffix; every dropped character is whitespace; the first kept one is not |
| Text.Trim | app/api/check-visibility/route.ts:47 | `trim`: never longer, neither starting nor ending with whitespace. `TrimStart`, `TrimEnd` and `TrimDropsTrailingWhitespace` say which characters go |
| Text.TrimEnd | app/api/check-visibility/route.ts:47 | the result is a prefix; every dropped character is whitespace; the last kept one is not |
| Text.ParseNatToString | lib/get-aggregated-results.ts:51 | printing a count in decimal is inverted by parsing it |
| Text.IntToStringInjective | app/api/check-visibility/route.ts:69 | different repetition numbers print differently in the key |
| ProbeRecords.SanitizeModel | app/api/check-visibility/route.ts:69 | same length; no "/" is left; each "/" becomes "_"; every other character is kept |
| ProbeRecords.ProbeKey | app/api/check-visibility/route.ts:69 | the key starts with the run id and a colon. `ProbeKeyInjective` and `SanitizedModelsShareKey` say when two probes share it; `ProbeKeyListed` and `ProbeKeyUnlisted` say when the status route lists it |
| ProbeRecords.ProbeKeyListed | app/api/check-status/route.ts:17 | a probe whose question id starts with "Q" is stored under a key that the `${runId}:Q*:answer*` glob lists |
| ProbeRecords.ProbeKeyUnlisted | app/api/check-visibility/route.ts:7-11 | a probe whose question id is non-empty but does not start with "Q" is accepted and written, yet its key is outside the status route's glob |
| ProbeRecords.ProbeKeyInjective | app/api/check-visibility/route.ts:69 | within a run, equal keys mean equal question ids (free of colons), equal repetitions and equal sanitized models, so distinct probes never overwrite each other |
| ProbeRecords.SanitizedModelsShareKey | app/api/check-visibility/route.ts:69 | "openai/gpt" and "openai_gpt" get the same key |
| ProbeRecords.SuccessRecord | app/api/check-visibility/route.ts:58-67 | not failed, no error, the model's text, and mention and position taken from the detection |
| ProbeRecords.FailureRecord | app/api/check-visibility/route.ts:80-90 | failed, empty answer, not mentioned, null position, and the error's message ("Unknown error" for a non-Error) |
| ProbeRecords.PersistWritesOnce | app/api/check-visibility/route.ts:15-101 | at most one write, always under the probe's key, of the record reported. It is a failure record exactly when a call or the success write threw. Nothing is written exactly when the failure write threw too |
| ProbeRecords.RecordFailure | app/api/check-visibility/route.ts:77-100 | the catch branch: writes the failure record, or nothing when that write throws too; stated in `PersistWritesOnce` |
| ProbeRecords.Persist | app/api/check-visibility/route.ts:15-101 | the try/catch around one probe; `PersistWritesOnce` states which record it writes and when it writes none |
| CheckVisibilityRoute.ValidateRequest | app/api/check-visibility/route.ts:7-11 | a request passes exactly when all six fields are truthy (no empty string, `run` not 0), and then carries their values |
| CheckVisibilityRoute.CleanDetection | app/api/check-visibility/route.ts:44-47 | `"```json"` deleted, then `"```"`, each with one newline after it, then `trim`; `CleanDetectionOfPlainText` and `CleanDetectionOfFencedText` give its result on plain and fenced replies |
| CheckVisibilityRoute.Attempt | app/api/check-visibility/route.ts:15-67 | the inner try up to the write: the success record, or the first text-generation error. `SuccessIsRecorded` and `CollaboratorFailureIsRecorded` state both outcomes through the route |
| CheckVisibilityRoute.Detect | app/api/check-visibility/route.ts:42-56 | the parsed cleaned text when it parses; otherwise a case-insensitive substring test with a null position |
| CheckVisibilityRoute.CleanDetectionOfPlainText | app/api/check-visibility/route.ts:44-47 | a reply without backticks is only trimmed |
| CheckVisibilityRoute.CleanDetectionOfFencedText | app/api/check-visibility/route.ts:44-47 | a payload fenced by "```json" or "```" cleans to the trimmed payload |
| CheckVisibilityRoute.HandleProbe | app/api/check-visibility/route.ts:5-112 | the POST handler with the store before and after. `HandleProbeWritesOnce`, `RetryOverwrites`, `RunZeroIsRejected` and the three `...IsRecorded` lemmas state its answers and writes |
| CheckVisibilityRoute.HandleProbeWritesOnce | app/api/check-visibility/route.ts:5-112 | a 400 or a body that does not parse leaves the store alone. A 200 wrote exactly the well-formed record it answers with, under the request's key. A 500 after validation wrote nothing |
| CheckVisibilityRoute.RetryOverwrites | app/api/check-visibility/route.ts:69-95 | two requests with the same key, the second answered 200: the store holds exactly the second record under the key, and everything else as before the first |
| CheckVisibilityRoute.CollaboratorFailureIsRecorded | app/api/check-visibility/route.ts:77-100 | a throwing text-generation call still answers 200, with the failure record (error message included) written under the key |
| CheckVisibilityRoute.SuccessIsRecorded | app/api/check-visibility/route.ts:15-76 | answering calls and a successful write give a success record with the model's text and the parsed or fallback detection |
| CheckVisibilityRoute.FailedWriteIsRecorded | app/api/check-visibility/route.ts:69-95 | a throwing success write is caught, and the failure record with the write's error is written under the same key |
| CheckVisibilityRoute.RunZeroIsRejected | app/api/check-visibility/route.ts:9-11 | repetition 0 is a 400 and writes nothing |
| CheckStatusRoute.KeptAnswers | app/api/check-status/route.ts:23-27 | never longer than the fetched values; a record is kept exactly when it was fetched as an object |
| CheckStatusRoute.KeptAnswersAppend | app/api/check-status/route.ts:23-27 | keeping distributes over concatenation, so kept records stay in fetch order |
| CheckStatusRoute.CollectAnswers | app/api/check-status/route.ts:18-28 | the loop returns exactly the kept records, in order |
| CheckStatusRoute.DeriveStage | app/api/check-status/route.ts:32-41 | the stage precedence chain, which never derives `failed`. `StageTable` flattens it into one condition per stage; `StageMonotone` and `StageMonotoneAlong` order it |
| CheckStatusRoute.StageTable | app/api/check-status/route.ts:32-41 | one independent condition per stage, both directions, for context, questions, checking (0 < n < 27), complete (n = 27) and pending |
| CheckStatusRoute.StageMonotone | app/api/check-status/route.ts:32-41 | between snapshots of the intended write order, the stage never goes back |
| CheckStatusRoute.StageMonotoneAlong | app/api/check-status/route.ts:32-41 | the same along any growing sequence of such snapshots |
| CheckStatusRoute.IntendedOrderStages | app/api/check-status/route.ts:32-41 | the intended write order passes pending, context, questions, checking for answers 1-26, then complete |
| CheckStatusRoute.PendingBeyondExpected | app/api/check-status/route.ts:32-41 | more than 27 answers read as pending, except that a context stored without questions reads as context |
| CheckStatusRoute.NonArrayQuestionsBlockContext | app/api/check-status/route.ts:33-47 | a truthy non-array questions value blocks `context` while the snapshot shows no questions |
| CheckStatusRoute.BuildRunStatus | app/api/check-status/route.ts:43-52 | the snapshot's fields: brand or "", questions kept only when they are an array, `totalAnswers` 27, `completedAnswers` the record count, and the derived stage |
| CheckStatusRoute.CheckStatus | app/api/check-status/route.ts:10-57 | a missing or empty run id gives 400; a throwing read gives 500; otherwise the snapshot of the kept records |
| CheckStatusRoute.ReadValues | app/api/check-status/route.ts:21 | `mget` of the listed keys: one value per key, the stored record or null. `ReadBack` says what the kept records then are |
| CheckStatusRoute.ReadBack | app/api/check-status/route.ts:17-28 | reading the listed keys yields one record per listed key still stored, and every such record |
| CheckStatusRoute.ReadBackOnly | app/api/check-status/route.ts:21-27 | every record read back is the stored record of some listed key; with `ReadBack` this characterises the kept records both ways |
| CheckStatusRoute.AllKeysWrittenCompletes | app/api/check-status/route.ts:17-41 | 27 listed keys that are all stored, after context and questions, read as complete |
| Aggregation.RoundHalfUp | lib/get-aggregated-results.ts:38-43 | the result is the integer nearest to sum / n, with halves rounded up |
| Aggregation.MeanPosition | lib/get-aggregated-results.ts:36-44 | null exactly when nothing counts; otherwise the rounded mean of the counted positions |
| Aggregation.RunsLabel | lib/get-aggregated-results.ts:51 | `${visibleCount}/${totalRuns}`; `RunsLabelParts` shows that both counts can be read back from it |
| Aggregation.RunsLabelParts | lib/get-aggregated-results.ts:51 | the label has exactly one "/", and its two sides parse back to the visible count and the total |
| Aggregation.PairRow | lib/get-aggregated-results.ts:27-54 | the row built from one pair's records. `PairVisibleIff`, `PairCounts`, `PairTexts`, `PairPositionNullIff` and `PairPositionIsMean` state its fields |
| Aggregation.AggregatePair | lib/get-aggregated-results.ts:23-54 | the row of one (question, model) pair, over the records with that question id and model id; its fields are stated by the `Pair...` lemmas |
| Aggregation.PairVisibleIff | lib/get-aggregated-results.ts:23-49 | a pair is visible exactly when one of its non-failed records mentions the brand |
| Aggregation.PairCounts | lib/get-aggregated-results.ts:23-31 | failed count plus listed texts equals the pair's record count; the label is visible count "/" that total |
| Aggregation.PairTexts | lib/get-aggregated-results.ts:27-52 | the texts are those of the pair's successful records, in order |
| Aggregation.PairPositionNullIff | lib/get-aggregated-results.ts:33-44 | the position is null exactly when no successful record mentions the brand with a non-null position |
| Aggregation.PairPositionIsMean | lib/get-aggregated-results.ts:33-44 | the position is the rounded mean over those records |
| Aggregation.AllFailedPair | lib/get-aggregated-results.ts:27-54 | an all-failed pair: invisible, null position, no texts, every record counted as failed |
| Aggregation.EmptyPair | lib/get-aggregated-results.ts:23-54 | a pair without records still gets a row, with runs "0/0" |
| Aggregation.MeanOfTwoPositions | lib/get-aggregated-results.ts:33-51 | positions 2 and 4 plus one unmentioned answer give position 3 and runs "2/3" |
| Aggregation.AbsentPositionCountsAsZero | lib/get-aggregated-results.ts:33-40 | an absent position passes `!== null` and counts as 0: positions 4 and absent give 2 |
| Aggregation.ModelRows | lib/get-aggregated-results.ts:22-55 | one row per model of the roster, in roster order |
| Aggregation.Rows | lib/get-aggregated-results.ts:21-56 | the rows of all questions, question-major; `RowsAt` places each pair's row |
| Aggregation.RowsAt | lib/get-aggregated-results.ts:21-55 | questions × models rows, question-major: row i·M + j (M the number of models) is question i with model j |
| Aggregation.AggregatedResults | lib/get-aggregated-results.ts:14-59 | the result view as a specification; `AggregatedResultsShape` gives its length, and `GetAggregatedResults` is proved equal to it |
| Aggregation.GetAggregatedResults | lib/get-aggregated-results.ts:14-59 | the nested loops return exactly the specified rows |
| Aggregation.AggregatedResultsShape | lib/get-aggregated-results.ts:17-22 | no rows without a status or without questions; otherwise questions × models rows |
| AgentFlow.ValidateQuestions | scripts/full-agent-flow.ts:119-144 | the `validateQuestions` tool: ids are listed exactly when validation fails. `ValidateQuestionsSpec` says when it fails and what it lists |
| AgentFlow.ValidateQuestionsSpec | scripts/full-agent-flow.ts:119-144 | invalid exactly when some question names the brand ignoring case. A failure lists the flagged ids and names them in its message. A pass has the fixed message and no ids |
| AgentFlow.FlaggedIdsMatch | scripts/full-agent-flow.ts:120-136 | the tool's ids equal the flagged ids of a direct recursion over the questions |
| AgentFlow.FlaggedIdsMembers | scripts/full-agent-flow.ts:120-122 | an id is flagged exactly when a question with that id names the brand |
| AgentFlow.FlaggedIdsAppend | scripts/full-agent-flow.ts:120-122 | flagging distributes over concatenation, so ids keep question order |
| AgentFlow.RunsOf | scripts/full-agent-flow.ts:326-330 | three checks, runs 1, 2 and 3 |
| AgentFlow.ChecksFor | scripts/full-agent-flow.ts:325-331 | one question's block of checks: three runs per model; `ChecksForAt` and `ChecksForMembers` place its entries |
| AgentFlow.AllChecks | scripts/full-agent-flow.ts:324-332 | `allChecks`; `AllChecksLength`, `AllChecksAt` and `AllChecksMembers` give its length, layout and members |
| AgentFlow.ChecksForAt | scripts/full-agent-flow.ts:325-330 | entry j·3 + r of a question's block is model j, run r + 1 |
| AgentFlow.AllChecksLength | scripts/full-agent-flow.ts:319-332 | the fan-out has `totalChecks` = questions × models × 3 entries |
| AgentFlow.AllChecksAt | scripts/full-agent-flow.ts:324-332 | entry (i·M + j (M the number of models))·3 + r is question i, model j, run r + 1 |
| AgentFlow.AllChecksMembers | scripts/full-agent-flow.ts:324-332 | a check appears exactly when its question and model are listed and its run is 1 to 3 |
| AgentFlow.ScriptAttempt | scripts/full-agent-flow.ts:201-241 | the success record when both calls answer; otherwise the first error thrown |
| AgentFlow.CheckVisibility | scripts/full-agent-flow.ts:193-269 | one probe: the settled outcome and the store after it; stated by `CheckVisibilitySpec` and `SettlingIgnoresStore` |
| AgentFlow.CheckVisibilitySpec | scripts/full-agent-flow.ts:193-269 | fulfils with the record written under its key, or rejects with the failure write's error and an unchanged store. A failure record exactly when a call or the success write threw |
| AgentFlow.SettlingIgnoresStore | scripts/full-agent-flow.ts:193-269 | how a probe settles does not depend on the store |
| AgentFlow.RunAll | scripts/full-agent-flow.ts:336-358 | every check probed, each at its own time, one outcome per check. `RunAllSettledAt` and `RunAllStore` say what each outcome and the final store hold |
| AgentFlow.RunAllSettledAt | scripts/full-agent-flow.ts:336-358 | the k-th settled outcome is the k-th probe's own |
| AgentFlow.RunAllStore | scripts/full-agent-flow.ts:336-358 | a fulfilled probe whose key no later probe shares leaves its record in the final store |
| AgentFlow.Results | scripts/full-agent-flow.ts:361-363 | the fulfilled values; `ResultsAreFulfilledValues` and `FulfilledValuesAppend` state which values and in what order |
| AgentFlow.Summarize | scripts/full-agent-flow.ts:366-379 | the summary counts; `SummarizeCounts`, `FanOutSummary` and `AllAnsweredSummary` relate them |
| AgentFlow.ResultsAreFulfilledValues | scripts/full-agent-flow.ts:361-363 | the results are the fulfilled values, by direct recursion |
| AgentFlow.FulfilledValuesAppend | scripts/full-agent-flow.ts:361-363 | results keep the settling order |
| AgentFlow.SummarizeCounts | scripts/full-agent-flow.ts:366-379 | failed = results − successful = failure records among the results; mentions counted among successful results only |
| AgentFlow.FanOutSummary | scripts/full-agent-flow.ts:319-377 | running the fan-out settles `totalChecks` outcomes, and the report never counts more |
| AgentFlow.AllAnsweredSummary | scripts/full-agent-flow.ts:336-379 | when every collaborator answers, every probe succeeds and none counts as failed |
| Polling.Stop | lib/use-interval-polling-results.ts:24-30 | not running, no interval, start time reset; run id, status and error kept |
| Polling.PollStep | lib/use-interval-polling-results.ts:40-53 | `pollStatus` up to its request; `TimeoutCeiling` says exactly when it stops instead of requesting |
| Polling.RenderStep | lib/use-interval-polling-results.ts:32-88 | the two effects of a render with new props. `ActivationStartsFreshWindow`, `RunningKeepsWindow`, `DeactivationResetsWindow` and `ReadsNeedRunIdAndRunning` state it |
| Polling.TickStep | lib/use-interval-polling-results.ts:74 | the interval firing. `TicksWithinWindow`, `TicksWhenStopped` and `TicksPastCeiling` state it over a trace of ticks |
| Polling.ReceiveStep | lib/use-interval-polling-results.ts:53-67 | the end of a status request; `DeliveredSnapshot`, `FailedRequestKeepsPolling` and `CompleteSnapshotStops` state it |
| Polling.StepsKeepValid | lib/use-interval-polling-results.ts:21-88 | every step keeps the invariant: nothing timed or armed while idle, and a live interval belongs to a running hook with a run id |
| Polling.ReadsNeedRunIdAndRunning | lib/use-interval-polling-results.ts:33 | no request without a truthy run id and `isRunning`; an idle hook's tick does nothing |
| Polling.TimeoutCeiling | lib/use-interval-polling-results.ts:43-51 | a poll stops with the timeout error and no request exactly when strictly more than five minutes have passed; at exactly five minutes it still requests |
| Polling.StopIdempotent | lib/use-interval-polling-results.ts:24-30 | stopping twice is stopping once |
| Polling.DeliveredSnapshot | lib/use-interval-polling-results.ts:56-63 | the snapshot is always stored. Polling stops exactly when it is complete or has 27 answers, and otherwise goes on unchanged |
| Polling.FailedRequestKeepsPolling | lib/use-interval-polling-results.ts:53-67 | a failed request sets "Failed to check status" and changes nothing else |
| Polling.ActivationStartsFreshWindow | lib/use-interval-polling-results.ts:33-74 | activating an idle hook sets the start to now, requests at once and arms the interval |
| Polling.RunningKeepsWindow | lib/use-interval-polling-results.ts:36-38 | a running hook keeps its start time |
| Polling.DeactivationResetsWindow | lib/use-interval-polling-results.ts:76-88 | going idle clears the interval and the start time and requests nothing |
| Polling.TicksWithinWindow | lib/use-interval-polling-results.ts:43-51 | ticks within five minutes of the start each request and change nothing |
| Polling.TicksWhenStopped | lib/use-interval-polling-results.ts:24-30 | without an interval no tick requests anything |
| Polling.TicksPastCeiling | lib/use-interval-polling-results.ts:43-51 | the first tick past the ceiling stops polling for good, with the timeout error |
| Polling.Schedule | lib/use-interval-polling-results.ts:74 | the k-th tick falls at start + 2000·k |
| Polling.ScheduledRequestsAreCapped | lib/use-interval-polling-results.ts:4-74 | left alone, an activation's interval issues at most 150 requests |
| Polling.CompleteSnapshotStops | lib/use-interval-polling-results.ts:60-63 | a snapshot the status route built from 27 records stops polling |
| Polling.PollingController.constructor | lib/use-interval-polling-results.ts:21-22 | both refs and both props start empty, in a valid state |
| Polling.PollingController.StopPolling | lib/use-interval-polling-results.ts:24-30 | performs `Stop` in place and keeps the controller valid |
| Polling.PollingController.PollStatus | lib/use-interval-polling-results.ts:40-51 | performs the ceiling check in place, reports whether a request was issued, and keeps the controller valid |
| Polling.PollingController.Render | lib/use-interval-polling-results.ts:32-88 | performs the effects of a render with new props in place and keeps the controller valid. A request is issued only for a running hook with a run id, and leaves an armed interval |
| Polling.PollingController.Tick | lib/use-interval-polling-results.ts:74 | performs an interval firing in place and keeps the controller valid. A request is issued only by a running hook with a run id, and changes nothing |
| Polling.PollingController.Receive | lib/use-interval-polling-results.ts:53-67 | performs the handling of an ended request in place and keeps the controller valid |

## Left out

- Text generation, the detector and the schemas. The answering model and the detector are oracle parameters returning text (or a structured detection in the agent) or a thrown value.
- The store client. The store is a map from keys to answer records, and each write is a parameter that succeeds or throws.
  - The `keys` glob `runId:Q*:answer*` is abstract: the status route gets the listed keys or the fetched values as input.
  - Races between listing and fetching are not modelled.
  - A non-answer object stored under an answer key is not modelled.
  - A stored context that is a truthy non-object is not modelled.
- `JSON.parse` of the detector's text is an abstract parse returning an optional detection. `JSON.stringify` is not modelled.
  - A reply that parses to `null` is not modelled. In the source, reading `detection.isVisible` (app/api/check-visibility/route.ts:63) then throws inside the inner try, and a failure record is stored.
  - A reply that parses to another non-object (a number, a string, a boolean, an array) does not throw there. `.isVisible` and `.position` read as undefined, and the route stores a success record without `mentioned` and `position`. The model represents this only as the nearest detection the parse may return: not mentioned, position absent.
- `toLowerCase` is ASCII lowercasing. `trim` uses a fixed set of whitespace characters, not the full Unicode set.
- Concurrency. `Promise.allSettled` is modelled as probes run one after another with store-independent outcomes. The browser's fire-and-forget loop is not part of this model.
- The floating-point visibility rate of the agent's summary, and its division by zero, are not modelled.
- `Date.now()` is a parameter. The probe route takes one `now` per request, shared by both record builders, although the route calls `Date.now()` separately for each record (app/api/check-visibility/route.ts:65, 87): there too a failure record written after a failed success write carries a later time. The agent's `RunAll` takes one time per check, shared by the success and the failure record of that check. The script calls `Date.now()` separately for each record (scripts/full-agent-flow.ts:239, 257), so a failure record written after a failed success write carries a later time there. Timer handles are parameters.
- React rendering and scheduling:
  - the hook's effects are folded into `Render`, and the re-render caused by `stopPolling` is folded into `Stop`;
  - when a cleanup clears an interval it is treated as gone, although the ref still holds the dead handle.
- The question generator and brand-context routes, the sandbox route, env loading and all logging are not part of this model. The question generator's agent loop and its three-step limit are left out too.
- The model roster `MODELS` (lib/constants.ts) is not part of this model. It is a parameter.
- The request body's fields have fixed types: strings and an integer `run`. A missing optional `failed` flag is modelled as `false`.
- CheckVisibilityRoute.CleanDetectionOfFencedText: states the cleaning only for payloads without backticks; other inputs follow `RemoveToken`'s definition.
- ProbeRecords.ProbeKeyInjective: requires question ids free of colons; with colons two keys can coincide.
