# Report Insight: a verified model

Report Insight takes building reports from a queue, masks personal data, has a language model
classify them, stores them, notifies urgent ones, and serves lists, a search, monthly reports and
human corrections on one PostgreSQL database. This project models its behaviour in Dafny and proves
what it is meant to guarantee. `dafny verify dfyconfig.toml` checks everything.

## What is modelled

**The persistence protocol.** `Pipeline.dfy` is the worker as a step system: messages that are queued,
in flight, deleted or dead; handlers of any number of worker processes, each at some phase of some key;
rows inserted but not committed; and the committed tables. Handlers interleave freely and can fail or
crash anywhere, commits can go unacknowledged, deletions can be stale or lost, an insert waits for an
open transaction on the same source key. `LedgerLaws`, `PipelineSafety`, `PipelineRuns` and
`PipelineProgress` prove what every step keeps, what follows for whole runs, and that runs end;
`Redelivery` and `NotificationBound` count notifications, and `Provenance` traces committed rows to what
the model said.
`Desk.dfy`, `DeskLaws`, `DeskRuns` and `DeskBodies` do the same for monthly reports, where creators race for version
numbers. `World.dfy` puts both on one database with one audit log and adds overrides. `Store.dfy` has the
same operations as classes with sessions, commit and rollback, and `Ingest.dfy` the sequential worker
code; their contracts name the functions that the step systems take their steps from.

**Strings.** `Regex.dfy` is Python's matcher for the three patterns in use, `Docs.dfy` a theory of
leftmost scanning with numbered placeholders, and `Masking.dfy` the masker on top of them. `Patterns`
says which texts are addresses and numbers without the patterns, `MaskingLaws` what masking guarantees,
and `MaskedWhole` whom it masks and how much. `Normalizer`,
`Drift`, `NotationTable`, `DriftExact` and `DriftLost` treat the notation normaliser and the drift it
undoes; `Summaries` recognises masked texts; `Search` runs a search and scans citations; `Privacy`
follows a text through masking and normalisation to the classifying call; `Prompts` and `PromptRuns`
follow raw texts through chunks and search hits to the answering call.

**Queries and scripts.** `Paging`, `Stats`, `Chunking`, `Corrections` and `S3Events`; `Singles.dfy` is
the rounding of a `REAL` column.

## Where the code differs from its comments

The model follows the code.

- `run_generation` sets `failed` and raises again (app/services/monthly.py:92-95); the unit of work then
  rolls back (app/core/db.py:43-45). `failed` is never committed and the row stays `generating`.
- Only the text to be classified is masked (app/services/ingest.py:83-91). Chunks hold the raw text
  (app/services/ingest.py:110), a search returns them (app/infra/db/repositories.py:266-294), and the
  answering call shows them to the model (app/infra/llm/anthropic_client.py:172-210), against the comment
  at app/services/ingest.py:83 and app/infra/masking/pii.py:1: `PromptRuns.AddressReachesModel`, and
  exactly when in `PromptRuns.PromptsHaveNoEmail` and `PromptRuns.PromptsHaveNoPhone`.
- A status is decided on the classifier's double (app/services/ingest.py:104-108), but the column keeps
  single precision (app/infra/db/models.py:96), so a stored 0.9499999881 can be `auto_classified` at a
  threshold of 0.95: `ReviewQueue.MisleadingNumbers`, and exactly when in `World.StoredNumberAgrees`.
- The monthly figures are three queries (app/infra/db/repositories.py:336-362), each of which sees what is
  committed at its moment: `StatsOfRuns.FiguresCanDisagree`, and exactly when in `Stats.FiguresAgree`.
- The idempotency key is the payload's `source_key` (app/services/ingest.py:116), not the S3 key that
  app/services/ingest.py:76 names. Of two objects with one `source_key` only the first is stored.
- A duplicate is not notified twice (app/services/ingest.py:138), but a report whose first attempt failed
  after notifying is: `Redelivery.NotifiedTwice`, and exactly when in `Redelivery.NotifiedOnceExactly`.
- Errors that cannot be retried are left for redelivery like all others (app/worker/main.py:48-53);
  nothing sends them straight to the dead-letter queue as app/domain/errors.py:25-26 says.
- The next cursor compares with the limit that was asked for, not the clamped one
  (app/api/routers/reports.py:30): `Paging.ApiCompleteExactly`.
- Normalisation does not recover every drifted text (scripts/synth.py:50-53): `DriftLost.ShippedRoundTrip`.
- A counter of 1,000,000 looks like a phone number inside a placeholder: the bounds in
  `MaskingLaws.NoPhoneLeft` and `MaskingLaws.MaskingLosesNothing`.

## Model

| member | source | states |
|---|---|---|
| `Masking.PiiMasker.Placeholder` | app/infra/masking/pii.py:50-54 | counting and recording one placeholder: only its kind's counter moves, the map gains the token |
| `Masking.PiiMasker.Sub` | app/infra/masking/pii.py:68-69 | a `re.sub` pass with the counting replacement, as an imperative loop, yields the scan's text, mapping and counter |
| `Masking.PiiMasker.MaskPersons` | app/infra/masking/pii.py:57-65 | the loop over the analyser's tokens and the join |
| `Masking.PiiMasker.MaskSync` | app/infra/masking/pii.py:46-71 | the three passes: masked text, mapping and counters |
| `Regex.MatchSound` | app/infra/masking/pii.py:18-19 | what the backtracking matcher accepts is in the pattern's language |
| `Regex.MatchComplete` | app/infra/masking/pii.py:18-19 | if some prefix is in the language, the matcher finds one, for every pattern of this shape |
| `Regex.MatchIsBest` | app/infra/masking/pii.py:18-19 | the matcher returns exactly the greedy choice: each item in turn repeats as often as it can with a match of the rest behind it |
| `Patterns.FullEmail` | app/infra/masking/pii.py:18-18 | the e-mail pattern's language, without the pattern: word characters, `.`, `+`, `-`; `@`; word characters and `-`; `.`; word characters, `.` and `-`; no part empty |
| `Patterns.FullPhone` | app/infra/masking/pii.py:19-19 | the phone pattern's language, without the pattern: 0, one to four digits, one to four digits, three or four digits, with or without a hyphen at either joint |
| `MaskedWhole.PersonsMasked` | app/infra/masking/pii.py:57-65 | exactly the tokens whose part of speech goes on with proper noun and person are replaced, the k-th by `[PERSON_k]`; the others are copied |
| `MaskedWhole.EmailIsLongest` | app/infra/masking/pii.py:68-68 | where the e-mail pattern matches, it takes the longest address that starts there |
| `MaskedWhole.WholePhone` | app/infra/masking/pii.py:69-69 | of a text that is a phone number the pattern takes all, also where its hyphens can be read in two ways |
| `MaskedWhole.WholeEmailMasked` | app/infra/masking/pii.py:67-69 | a text that is an address becomes `[EMAIL_1]`, whatever digits it has, and the mapping holds it |
| `MaskedWhole.WholePhoneMasked` | app/infra/masking/pii.py:67-69 | a text that is a phone number, such as 090-1234-5678, becomes `[PHONE_1]`, and the mapping holds it |
| `MaskedWhole.OnlyMatchesMasked` | app/infra/masking/pii.py:68-69 | behind an e-mail placeholder there is an address, and behind a phone placeholder a number |
| `Docs.ScanClean` | app/infra/masking/pii.py:68-69 | a leftmost non-overlapping scan leaves no match between its placeholders |
| `Docs.ScanIsWeave` | app/infra/masking/pii.py:68-69 | a later pass over a masked text never cuts or swallows a placeholder that contains no match of its own |
| `MaskingLaws.NoEmailLeft` | app/infra/masking/pii.py:46-71 | no substring of the masked text matches the e-mail pattern, for every text and token split |
| `MaskingLaws.NoPhoneLeft` | app/infra/masking/pii.py:46-71 | no substring matches the phone pattern exactly if fewer than 1,000,000 phone numbers were counted |
| `MaskingLaws.PlaceholdersDistinct` | app/infra/masking/pii.py:50-54 | all placeholders of a text are distinct |
| `MaskingLaws.MappingExact` | app/infra/masking/pii.py:47-54 | the mapping has exactly one entry per placeholder, holding what it replaced |
| `MaskingLaws.MaskingLosesNothing` | app/infra/masking/pii.py:47-71 | for texts without `[`: masked text and mapping give the original back exactly if the person and e-mail counters stay below 1,000,000 |
| `MaskingLaws.ShortTextsAreSafe` | app/infra/masking/pii.py:46-71 | a text of fewer than 5,000,000 characters in fewer than 1,000,000 tokens keeps within both bounds: no phone number is left, and without `[` nothing is lost |
| `Normalizer.TextNormalizer.constructor` | app/infra/text/normalize.py:32-38 | the kept entries are the given ones, as a multiset, by falling variant length |
| `Normalizer.TextNormalizer.Normalize` | app/infra/text/normalize.py:40-44 | the loop applies the entries one after the other |
| `Normalizer.ByLengthDescending` | app/infra/text/normalize.py:37-38 | longer variants come first |
| `Normalizer.ByLengthStable` | app/infra/text/normalize.py:37-38 | entries of equal length keep their order |
| `Normalizer.LongestWins` | app/infra/text/normalize.py:37-44 | a text that is a variant becomes its canonical form also when shorter variants occur in it |
| `Normalizer.NormalForm` | app/infra/text/normalize.py:37-44 | no variant occurs in a normalised text when no canonical form overlaps a variant |
| `Normalizer.NormalizeIdempotent` | app/infra/text/normalize.py:37-44 | normalising twice is normalising once, and exactly the variant-free texts are unchanged |
| `Drift.ApplyNotationDrift` | scripts/synth.py:86-91 | the replacement loop and its changed flag |
| `Drift.RoundTrip` | scripts/synth.py:86-91 | for any drift table, normalising undoes drift, whatever the two orders, on every text whose drifted form has no variants but the inserted ones |
| `NotationTable.IsDriftTable` | scripts/synth.py:54-68 | the shipped table meets the conditions of the round trip |
| `NotationTable.Overlaps` | scripts/synth.py:54-68 | two variants of the shipped table overlap exactly in four listed ways: いおん behind the start of ろうすい, ふぐあい or かさい, and そうおん behind that of せいそう |
| `NotationTable.EarlierEntryFirst` | scripts/synth.py:86-91 | of two overlapping canonical forms the one first in the table is replaced: 漏水漏れ drifts to ろうすい漏れ |
| `DriftLost.ShippedRoundTrip` | scripts/synth.py:54-91 | the shipped normaliser recovers a text exactly if it contains no variant and none of ろうす異音, ふぐあ異音, 火災おん, 清掃おん |
| `DriftLost.FireSoundIsLost` | scripts/synth.py:50-53 | 火災おん does not survive drift and normalisation |
| `Summaries.KeyIsNoSpace` | app/infra/llm/summaries.py:36-39 | a key is the text without its white space |
| `Summaries.ChunksJoin` | app/infra/llm/summaries.py:78-78 | the masked key is cut at every `[` and nowhere else |
| `Summaries.TailIsBehind` | app/infra/llm/summaries.py:79-80 | a chunk's tail is what stands behind its first `]`, or all of it |
| `Summaries.GreedyStep` | app/infra/llm/summaries.py:78-86 | taking the first occurrence of a fragment never loses an embedding |
| `Summaries.MatchesMasked` | app/infra/llm/summaries.py:68-89 | the matcher accepts exactly if there is a bracket, the fragments embed in order without overlap, and they make up half of the original |
| `Summaries.Lookup` | app/infra/llm/summaries.py:49-65 | exact hit first, else the first recognised entry, else nothing |
| `Summaries.MaskingRecognised` | app/infra/llm/summaries.py:53-65 | the masking of a text without brackets, in which fewer than 1,000,000 persons and fewer than 1,000,000 e-mail addresses were counted, is recognised exactly if something was masked and at least half of the text was left |
| `Privacy.NoMatchIsNoEmail` | app/infra/masking/pii.py:18-18 | the e-mail pattern matches somewhere exactly if an `@` and a `.` stand between suitable neighbours |
| `Privacy.NormalizedKeeps` | app/services/ingest.py:84-87 | normalising with neutral entries neither makes nor hides a match |
| `Privacy.ClassifierSeesNoEmail` | app/services/ingest.py:83-91 | no text given to the model for classification contains an e-mail address, also after normalisation with a dictionary of letters |
| `Privacy.ClassifierSeesNoPhone` | app/services/ingest.py:83-91 | nor a phone number, exactly if fewer than 1,000,000 were counted |
| `Prompts.ChunksExact` | app/services/ingest.py:175-189 | for any pattern that white space is no part of: some chunk of a report contains a match exactly if its summary or its raw text does |
| `Prompts.PromptEmail` | app/infra/llm/anthropic_client.py:172-210 | the prompt of an answer contains an e-mail address exactly if the question or the chunk of some hit does |
| `Prompts.PromptPhone` | app/infra/llm/anthropic_client.py:172-210 | it contains a phone number exactly if the question, the chunk of some hit or the decimal id of some hit does |
| `PromptRuns.PromptsHaveNoEmail` | app/infra/db/repositories.py:242-294 | in every run, for every user, filter and question: no prompt that a search can send contains an e-mail address exactly if nothing can be found, or neither the question nor the summary or raw text of any report that can be found contains one |
| `PromptRuns.PromptsHaveNoPhone` | app/infra/db/repositories.py:242-294 | the same for phone numbers, counting also the decimal ids of the reports that can be found |
| `PromptRuns.RawTextReachesModel` | app/services/search.py:105-115 | for every object whose raw text contains a match, however it is classified: a run after which a search puts the match before the model |
| `PromptRuns.AddressReachesModel` | app/services/search.py:105-115 | such a run for the raw text `a@b.cc`: the comment at app/services/ingest.py:83 does not hold of the answering call |
| `Search.CitationShape` | app/services/search.py:21-21 | the citation pattern matches exactly `[report:` digits `]` |
| `Search.CitationsExact` | app/services/search.py:153-154 | the parsed ids are exactly those that some citation anywhere in the text names |
| `Search.ValueOfDec` | app/services/search.py:153-154 | the decimal numeral of a number is read as that number |
| `Search.DigitsConcat` | app/services/search.py:153-154 | digits in front count for their power of ten, so zeros in front for nothing |
| `Search.Search` | app/services/search.py:77-150 | a failed retrieval: nothing is sent; no hits: one NoResults and no model call; else one prompt, Sources and the tokens, and then the error if the stream breaks or the citations cannot be looked up, or Done with the ascending distinct ids cited anywhere in the joined answer that exist and are permitted |
| `Search.CitedIsListed` | app/services/search.py:121-144 | if `[report:n]`, n in decimal, stands anywhere in the joined answer and n exists and is permitted, the last event names n |
| `Search.SourcesAreStored` | app/services/search.py:101-110 | every source shows the id and summary of a stored, permitted report, and its date as ten characters that read as its year, month and day |
| `Search.FiltersPick` | app/infra/db/repositories.py:252-264 | each search filter picks the reports whose own field it names or bounds; with none, all permitted ones remain |
| `Chunking.SplitKeeps` | app/services/ingest.py:183-183 | splitting at blank lines loses only white space |
| `Chunking.SplitIsExact` | app/services/ingest.py:183-183 | the pieces joined by blank lines give the text, and each cut is at the first blank line behind the one before |
| `Chunking.StripTakes` | app/services/ingest.py:183-183 | stripping takes white space at both ends and nothing in between |
| `Chunking.ChunksKeepText` | app/services/ingest.py:175-189 | the first chunk starts with the summary; all chunks together lose only white space; later chunks are trimmed single paragraphs |
| `Chunking.ChunksExactly` | app/services/ingest.py:180-189 | a text of up to 1500 characters, or of white space only, is one chunk with all of it behind the summary; any other has one chunk for each piece that is not blank, each holding one trimmed piece without a blank line, the first of them behind the summary |
| `S3Events.ParseS3Event` | app/services/ingest.py:192-215 | the branches of the event parser, and its loop over records |
| `S3Events.EventRoundTrip` | app/services/ingest.py:209-215 | every key that an event names is read back, in order |
| `S3Events.OneRecordMore` | app/services/ingest.py:209-215 | a malformed record fails the event, a record with an empty key or none adds nothing, any other adds its key at the end |
| `Ingest.IngestService.Classify` | app/services/ingest.py:79-134 | one masked and normalised text goes to the model; the right failure counter moves; the draft has the status its confidence calls for |
| `Ingest.IngestService.Persist` | app/services/ingest.py:136-153 | a duplicate is neither stored nor notified; a new urgent report is notified or the ingest fails |
| `Ingest.IngestService.IngestFromKey` | app/services/ingest.py:72-172 | the whole ingest of one key, with its error branches |
| `Ingest.ProcessKey` | app/worker/main.py:34-37 | one key in its own transaction: it succeeds exactly if the object, the model and the embedder answer, a new urgent report can be notified and the commit goes through; the tables and the id sequence it leaves, in either case |
| `Ingest.Handle` | app/worker/main.py:23-55 | the number of keys done is the place of the first key that does not succeed; the tables are what the keys up to there leave; the message is deleted exactly if all succeed, and every key done has its report |
| `Ingest.SuccessesStay` | app/worker/main.py:34-37 | a key that succeeded stays stored whatever the later keys of the message do |
| `Ingest.IngestIsSteps` | app/services/ingest.py:72-172 | in every branch, failing or not, a handler of the step system whose key no other transaction holds does to tables, ids, notifications and handler what the sequential code does |
| `Ingest.CanBeCommitted` | app/services/ingest.py:72-172 | every object and every classification of it have a run that commits exactly its rows, under id 1 |
| `LedgerLaws.OpenKeeps` | app/infra/db/repositories.py:80-97 | inserting under a free source key keeps every table invariant |
| `LedgerLaws.PublishKeeps` | app/core/db.py:34-42 | committing a notified or non-urgent row keeps them |
| `LedgerLaws.DropKeeps` | app/core/db.py:43-45 | rolling back keeps them, and a notification already sent is accounted as wasted |
| `PipelineSafety.InsertKeeps` | app/infra/db/repositories.py:80-97 | the insert step, new or duplicate, keeps the invariant |
| `PipelineSafety.CommitKeeps` | app/core/db.py:40-42 | the commit step, acknowledged or not, keeps the invariant |
| `PipelineSafety.FailKeeps` | app/core/db.py:43-45 | failing at any point keeps the invariant |
| `PipelineSafety.DeleteKeeps` | app/worker/main.py:46-55 | a deletion, also a stale or lost one, keeps the invariant |
| `PipelineRuns.StepKeeps` | app/worker/main.py:23-61 | every step of every handler and message, and every override, keeps the invariant |
| `PipelineRuns.OneReportPerKey` | app/infra/db/repositories.py:80-127 | in every run: at most one report per payload source key, always with analysis and chunks, its content taken from one object |
| `PipelineRuns.DeletedIsStored` | app/worker/main.py:29-55 | in every run: a deleted message has a committed report for every key it named |
| `PipelineRuns.NotificationsExact` | app/services/ingest.py:136-153 | in every run: notifications of a committed report are one if it was classified urgent, else none, plus those of attempts rolled back after notifying |
| `PipelineRuns.NoStrayNotifications` | app/services/ingest.py:136-153 | a key without a committed report was notified only by attempts open or rolled back |
| `PipelineRuns.UrgentIsNotified` | app/services/ingest.py:148-153 | a committed urgent report was notified |
| `PipelineRuns.CommittedStays` | app/infra/db/repositories.py:89-97 | from any point of a run on, rows stay, statuses only move to human-verified, and confidence, summary and chunks never change |
| `Provenance.ReportsComeFromAnswers` | app/services/ingest.py:104-136 | in every run: each committed report holds one object's property, key, time and text; the summary and confidence, and unless overridden the labels, of what the model said in one step of the run, with the status that number calls for; and the chunks of that text and summary |
| `PipelineRuns.ReceivedAtMostThrice` | terraform/modules/pipeline/main.tf:46-55 | no message is received more than three times; deletion and dead-lettering are final |
| `PipelineProgress.StepDecreases` | app/worker/main.py:40-61 | every worker step decreases one measure over remaining deliveries and handler steps |
| `PipelineProgress.RunsAreBounded` | app/worker/main.py:40-61 | an explicit bound on the worker steps of any run over a finite inbox |
| `PipelineProgress.FinishedRuns` | app/worker/main.py:40-61 | a run that cannot go on has every message deleted or in the dead-letter queue and no open transaction |
| `PipelineProgress.NobodyIsStuck` | app/infra/db/repositories.py:80-97 | a handler can go on, lacks its object, or waits for one that can go on: no deadlock |
| `Redelivery.NotifiedTwice` | app/services/ingest.py:136-153 | every urgent object can be notified twice: notify, fail, redeliver, notify, commit |
| `Redelivery.NotifiedOnceExactly` | app/services/ingest.py:136-153 | in every run a committed unreviewed urgent report was notified once, plus once for every step of the run that failed a handler between notifying its key and committing it; so once exactly if there is no such step |
| `NotificationBound.NotifiedAtMostThrice` | app/services/ingest.py:136-153 | in every run a source key is notified at most three times for each place in the inbox that leads to it |
| `Tables.Max` | app/infra/db/repositories.py:389-399 | the largest version, or 0 |
| `Tables.Editable` | app/services/monthly.py:114-133 | saving and approving are open exactly to draft rows of permitted properties for users outside the quality department; the errors otherwise |
| `Store.Session.Commit` | app/core/db.py:40-42 | the session's tables become the committed ones |
| `Store.Session.Rollback` | app/core/db.py:43-45 | the session goes back to the committed tables |
| `Store.Session.UpsertIngested` | app/infra/db/repositories.py:74-127 | nothing for a known source key, else report, analysis and chunks together under a new id |
| `Store.Session.UpdateAnalysis` | app/infra/db/repositories.py:142-171 | missing report, foreign property and missing analysis are errors; else the labels are set and the row is human-verified |
| `Store.Session.MaxVersion` | app/infra/db/repositories.py:389-398 | the largest version of a property and month |
| `Store.Session.CreateGenerating` | app/infra/db/repositories.py:383-414 | a generating row, one version up |
| `Store.Session.SetBody` | app/infra/db/repositories.py:452-465 | body and status of one row |
| `Store.Session.Approve` | app/infra/db/repositories.py:467-481 | status, approver and time of one row |
| `Store.Session.Record` | app/infra/db/repositories.py:490-493 | the log grows by one record |
| `UseCases.Finish` | app/core/db.py:34-45 | commit on success; nothing on an error of the body or of the commit itself, which is raised |
| `UseCases.OverrideAnalysis` | app/services/admin.py:56-79 | exactly when it succeeds, and then exactly the row's labels and status change and one record of the caller is appended; otherwise nothing, with the error |
| `UseCases.RecordSearch` | app/api/routers/search.py:30-36 | a search adds one record to the log and nothing else, or fails with the commit and adds nothing |
| `UseCases.RequestGeneration` | app/services/monthly.py:62-78 | quality department and foreign properties are refused; else one new row, empty and generating, with the next version |
| `UseCases.Generate` | app/services/monthly.py:80-103 | on failure the session's row is `failed` and the error is raised again |
| `UseCases.RunGeneration` | app/api/routers/monthly.py:25-31 | on success the committed row holds the attempt's text as a draft; on failure the `failed` status is rolled back with the error and nothing changes |
| `UseCases.PatchSave` | app/api/routers/monthly.py:80-84 | a save succeeds exactly on a draft the caller may edit, and then only that row's text changes, to the given one |
| `UseCases.PatchApprove` | app/api/routers/monthly.py:80-86 | an approval succeeds exactly on a draft the caller may edit, and then that row is approved by the caller at that time, its text unchanged, and one record names it |
| `UseCases.PageApprove` | app/api/routers/monthly_ui.py:151-165 | the given text, the approval by the caller at that time and its record are committed together, exactly on a draft the caller may edit, or nothing is |
| `DeskLaws.NextIsAbove` | app/infra/db/repositories.py:389-399 | the version after the maximum read sits right above an existing one |
| `DeskRuns.StepKeeps` | app/services/monthly.py:62-146 | every step of creators, background jobs, editors and approvers keeps the invariant |
| `DeskRuns.VersionsHaveNoGaps` | app/infra/db/repositories.py:383-414 | in every run of racing creators: the committed versions of a property and month are exactly 1..n, one row each |
| `DeskRuns.ApprovedIsFinal` | app/services/monthly.py:114-146 | in every run: approved rows never change, statuses only move generating, draft, approved, none is `failed`, the log only grows |
| `DeskRuns.ApprovalsAgree` | app/services/monthly.py:125-146 | in every run: a row is approved exactly if the log holds one approval of it, with its approver, property, month and version |
| `DeskRuns.JobsFindGenerating` | app/api/routers/monthly.py:41-53 | a pending background job implies that its row is still generating |
| `DeskBodies.RowsHoldLastWritten` | app/services/monthly.py:80-146 | in every run: a committed row holds the text last generated for it or last saved by someone allowed to, and the approver and time of the approval it got |
| `World.OverrideIsUseCase` | app/services/admin.py:56-79 | the override step changes the tables as the use case does |
| `World.EditIsUseCase` | app/services/monthly.py:80-146 | so do the monthly steps |
| `World.RunOfParts` | app/core/db.py:34-45 | every run of the whole system is a run of the worker and a run of the monthly reports, so their results hold for it |
| `World.OverridesAgree` | app/services/admin.py:56-79 | in every run: an analysis is human-verified exactly if the log holds an override of it, and has the latest one's labels |
| `World.QueueIsUnreviewed` | app/services/ingest.py:104-108 | in every run: a report needs review exactly if the confidence that the classifier gave was below the threshold and nobody has overridden it |
| `World.StoredNumberAgrees` | app/infra/db/models.py:96-96 | in every run, for any threshold: the status of a report not overridden agrees with its stored confidence exactly if the classifier's number is not between the threshold and the point where single precision starts to round up to it |
| `Singles.SingleMonotone` | app/infra/db/models.py:96-96 | storing in single precision keeps the order of numbers |
| `Singles.SingleIsNearest` | app/infra/db/models.py:96-96 | the stored number is a single-precision one, and no other is nearer |
| `Singles.VerdictChanges` | app/infra/db/models.py:96-96 | for any threshold, storing a number moves it across exactly if it lies between the threshold and that point |
| `Paging.UiCovers` | app/api/routers/admin_ui.py:97-109 | a page of the admin screen and its cursor lose no hit |
| `Paging.FiltersPick` | app/infra/db/repositories.py:178-226 | each list filter picks the rows that name its value; with none, all permitted ones remain; the queue is the list of those that need review |
| `Paging.CategoriesPartition` | app/infra/db/repositories.py:178-195 | the hits of a list are those of its four categories together, each in exactly one |
| `Paging.PageSizes` | app/api/routers/admin_ui.py:97-109 | the admin page shows up to 20 rows and offers a next page exactly if there are more; an API page shows up to the limit, but 20 for a limit below 1, and never more than 100 |
| `Paging.ApiCompleteExactly` | app/api/routers/reports.py:29-31 | every API page, on every table, is complete exactly if 1 <= limit <= 100 |
| `Paging.ApiCutsShort` | app/api/routers/reports.py:29-31 | with any other limit, a table of 101 rows is cut short without a next cursor |
| `Paging.ApiFailsExactly` | app/api/routers/reports.py:30-30 | the request fails exactly for limit 0 and an empty page |
| `Paging.WalkIsComplete` | app/infra/db/repositories.py:173-226 | a finished walk over changing tables is strictly descending and shows every row that matched throughout exactly once |
| `Paging.WalkEnds` | app/infra/db/repositories.py:194-226 | the cursor falls with every page, so a walk from a cursor ends |
| `Paging.WalkEndsFromStart` | app/infra/db/repositories.py:194-226 | and one from the first page, which has a hit as its cursor |
| `ReviewQueue.QueueHolds` | app/infra/db/repositories.py:197-211 | in every run: the queue query matches exactly the permitted reports that the classifier put below the threshold and that nobody has overridden |
| `ReviewQueue.NumberMisleads` | app/services/ingest.py:104-126 | for every object and every number in that gap: a run after which status and stored confidence disagree |
| `ReviewQueue.MisleadingNumbers` | app/infra/db/models.py:96-96 | such numbers: 0.95 at a threshold of 0.95, 0.9 at 0.9, and 0.849999999 at the default of 0.85 |
| `Stats.BoundsPartition` | app/infra/db/repositories.py:311-318 | the half-open bounds select exactly the instants of the month; December 9999 is the one month without bounds |
| `Stats.CountCategories` | app/infra/db/repositories.py:336-344 | a positive count for every category that occurs, and no other entry |
| `Stats.CountUrgencies` | app/infra/db/repositories.py:346-354 | the same for urgencies |
| `Stats.ComputeStats` | app/infra/db/repositories.py:327-371 | each figure describes what its own query saw, where required actions and the month's reports that need none add up to the month's; December 9999 is refused |
| `Stats.FiguresCount` | app/infra/db/repositories.py:336-362 | total and sum by urgency are the numbers of reports that their queries saw, and required actions are at most those of theirs |
| `Stats.OneMoreReport` | app/infra/db/repositories.py:327-371 | one report more raises the total, its category, its urgency and, if its label says so, the required actions by one if it is of the property and the month, and no other figure |
| `Stats.FiguresAgree` | app/infra/db/repositories.py:356-371 | with rows coming in between the queries the total is at most the sum by urgency; they agree exactly if no report of the month came in between; if none came before the third query either, required actions are at most the total |
| `Stats.MonthlyFigures` | app/infra/db/repositories.py:327-371 | with one state of the tables for all queries: the total of a month is the number of the property's reports in it |
| `Stats.TotalsAreComplete` | app/infra/db/repositories.py:311-371 | the computed totals of distinct months add up to the property's reports, once the months cover them |
| `StatsOfRuns.RunsAreConsistent` | app/infra/db/repositories.py:94-127 | in every run: reports and analyses are committed together, which the figures rely on |
| `StatsOfRuns.FiguresOfRuns` | app/infra/db/repositories.py:336-362 | the results of `Stats.FiguresAgree` for queries at any three moments of any run of the whole system |
| `StatsOfRuns.FiguresCanDisagree` | app/infra/db/repositories.py:336-362 | for every object that needs action: a run in which the total is 0 while the sum by urgency and the required actions are 1 |
| `Corrections.LoadConcat` | scripts/export_corrections.py:25-40 | a list is read entry by entry, in order |
| `Corrections.LoadOne` | scripts/export_corrections.py:25-40 | an entry gives itself with white space taken from both ends, and its source, or nothing if it then is empty or changes nothing |
| `Corrections.LoadIsClean` | scripts/export_corrections.py:25-40 | what is loaded is stripped, non-empty and says something |
| `Corrections.LoadKeepsClean` | scripts/export_corrections.py:25-40 | reading a clean list back changes nothing |
| `Corrections.Overlay` | scripts/export_corrections.py:47-51 | the counting loop: the last entry wins, and the dictionary grows by the number counted |
| `Corrections.LessIsFirstDifference` | scripts/export_corrections.py:52-52 | the order of variants is that of the first differing character; a proper prefix comes first |
| `Corrections.Sorted` | scripts/export_corrections.py:52-52 | the dictionary's entries in ascending order of variants |
| `Corrections.Merge` | scripts/export_corrections.py:43-62 | sorted, distinct variants; total is the old variants plus the added ones |
| `Corrections.LastForIsLast` | scripts/export_corrections.py:46-51 | the entry that counts for a variant is in the list, and none behind it has the variant |
| `Corrections.MergeIsLastWins` | scripts/export_corrections.py:46-51 | every variant has its last incoming entry, or else its last old one, and nothing else is written |
| `Corrections.MergeTwice` | scripts/export_corrections.py:43-62 | merging the same entries again adds nothing and changes nothing |

## Left out

- Drift.RoundTrip: for an arbitrary table the condition is shown sufficient only; for the shipped table `DriftLost.ShippedRoundTrip` has the exact one.
- Privacy.ClassifierSeesNoEmail: assumes a dictionary whose entries are letters; an entry such as `a@b.c` would put an address into the text.
- MaskingLaws.MaskingLosesNothing: for texts with `[` in them a placeholder cannot be told from original text.
- Summaries.MaskingRecognised: not for a text in which a million persons or e-mail addresses were counted, where a placeholder can itself look like a phone number.
- PromptRuns.PromptsHaveNoEmail: assumes that no white-space character is a letter or a digit (`Text.Unicode.SpacesApart`); which chunks a search returns is left to the vectors, so all choices are covered.
- The system prompts, the tags around the text to be classified, and the prompt for monthly narration, which holds a property's name and the figures.
- Search.Search: the hits and the token stream are inputs; latencies and token counts of the Done event, Python's limit on the length of a number and 64-bit report ids are not modelled.
- Ingest.IngestIsSteps: for a key that no other transaction holds; what waiting adds is covered by the step system alone.
- Ingest.Handle: receiving up to ten messages at once and the semaphore only remove interleavings that the step system allows.
- Chunking.ChunksKeepText: embeddings of the chunks are not modelled.
- Corrections.MergeTwice: the JSON text of the file is not modelled, only its entries.
- The language model, the embedding model, S3, SQS and Slack are inputs or nondeterministic outcomes; objects in S3 do not change during a run.
- Character classes of Unicode are a parameter; only their ASCII part is fixed.
- The morphological analyser: tokens are an input whose surfaces join to the text.
- A single save or approve between its status check and its write: each is one step, as the code takes no row lock there.
- Reporter role, photo metadata, model ids, prompt versions and token counts of a report, which are stored unchanged.
- Vector similarity, the HTML, PDF and SSE output, `render_monthly_markdown`, migrations, settings, logging and metrics beyond the ingest counters.
- The month choices of the monthly page, sample generation and missing-information noise.
- Users and branches: a caller carries an id, a role and the properties it may see.
- Liveness of background generation: a crash leaves the row generating.
