# TrecDylanDan retrieval core, modelled in Dafny

This project models the deterministic core of a TREC retrieval-augmented
generation pipeline. Lucene searchers, an answering agent, a report writer,
a report evaluator and run-file tooling sit around that core. Each source file
of the core is a Dafny module. Classes that the source updates in place become
Dafny classes. Loops become methods with invariants, proved against
specification functions. The properties the source promises are lemmas about
those functions.

What is modelled:

- **Reciprocal rank fusion.** A document ranked r by a query contributes
  1/(60 + r). Three searchers use it:
  - `RootFusion`: the newer searcher fuses per root id and keeps only each
    query's first hit of a root plus a best segment per root;
  - `IrSearcher` with `SearchResults`, `RankedDocuments` and `FusionSpec`:
    a later hit of a document in the same query overwrites its rank;
  - `LegacySearch`: keyed by id or url, and a failing query is isolated.

  `Ranking`, `Rrf`, `Sorting` and `Folds` hold the shared score sums and the
  stable ranking.
- **Document reassembly** (`Reassembly`). The segments of a document are
  collected by a prefix scan of the term dictionary, sorted by start offset
  and stitched with a frontier, so that no offset is emitted twice.
  `DocumentSelection` and `CliDocumentSelection` model the argument handling
  of the daemon entry point and of the command-line entry point.
- **The daemon protocol.**
  - `Framing`: Content-Length framing over bytes, the Java encoder and header
    reader, and the Python encoder and reader.
  - `SearcherDaemon`: the Java request loop, which answers each request with
    one response.
  - `DaemonClient`: the Python client's table of pending request ids.
- **Sliding-window token buckets** and the rate limits built on them:
  `IrTokenBucket`, `QaTokenBucket`, `RateLimits`, `QaRateLimits` and
  `GenRateLimit`. This covers reservation arithmetic, caps, bucket routing and
  refunds to the reserved events.
- **Text utilities.**
  - `Synonyms`: the synonym file and query expansion.
  - `InfoUtils`: document assembly, first-three-unique selection and the
    best fragment.
  - `TemplateGenerator`: group merging and segment-ordered document text.
  - `QuestionExtract` and `QuestionSets`: the question-set generator's JSON
    extraction and batching.
- **Status state machines.**
  - `QaAgent`: the answering agent's history and status pass.
  - `ReportEvaluator`: the weighted rubric and the PASS rule.
  - `ReportGenerator` and `ReportNotes`: note bookkeeping and the notes
    listing.
- **TREC run files.**
  - `RunFormat`: the run-format validator.
  - `GenerateRuns`: topic loading, sentence splitting, response checks and the
    run loop.
  - `ConvertRun`: conversion of pipeline output into a run.

Helper modules:

- `Wrappers`, `Strings`, `Decimal` and `LexOrder`.
- `Json`: a JSON value with Python dict and Jackson lookup semantics.
- `PyJson` and `PyText`: Python's subscripting, `get`, iteration, `strip`,
  `split` and `_extract_tag`.
- `JsonCodec` and `JavaExceptions`.

External effects are parameters of the model:

- Lucene searches are hit lists.
- `json.loads` is a function that returns None where it raises.
- Model replies are strings.
- The clock is an explicit time.
- Token counts are integers.

Scores are exact reals. Equal scores are ordered by key, where the source
falls back to hash-map order.

## Model

| member | source | states |
|---|---|---|
| RunFormat.ValidateRunFormat | src/RunGeneration/test_run_format.py:14-103 | returns exactly the error list `validate_run_format` builds, in append order, or the exception it raises (`RunProblems`) |
| RunFormat.CheckResponses | src/RunGeneration/test_run_format.py:59-101 | the `responses` checks: not a list, empty list, every response's problems in order, then the word-limit error |
| RunFormat.CheckResponse | src/RunGeneration/test_run_format.py:71-97 | the problems of one response: not a dict, text checks, citation checks |
| RunFormat.CheckText | src/RunGeneration/test_run_format.py:77-84 | a missing text, or a text that is not a string, is reported for that response |
| RunFormat.CheckCitationField | src/RunGeneration/test_run_format.py:86-97 | missing citations, non-list citations, more than 3 citations, and each non-string citation are reported |
| RunFormat.CheckCitations | src/RunGeneration/test_run_format.py:95-97 | one problem per citation that is not a string, in citation order |
| RunFormat.TopLevelMissing | src/RunGeneration/test_run_format.py:27-33 | a run without `metadata` gets exactly that one error; with `metadata` but no `responses`, exactly that one |
| RunFormat.MissingPrefixFailure | src/RunGeneration/test_run_format.py:39-41 | once `field not in metadata` raises, the later fields change nothing |
| RunFormat.MissingNothing | src/RunGeneration/test_run_format.py:39-41 | no missing-field error exactly when every required field is `in` the metadata |
| RunFormat.MissingOfDict | src/RunGeneration/test_run_format.py:37-41 | on a dict, a field is reported missing exactly when it is required and absent, and only missing-field errors come from the loop |
| RunFormat.FieldCheckOfDict | src/RunGeneration/test_run_format.py:44-57 | a dict's type test never raises and reports exactly a present field with an unacceptable value |
| RunFormat.TypeNothing | src/RunGeneration/test_run_format.py:44-57 | the five type tests report nothing exactly when each reports nothing |
| RunFormat.TypeProblemsOfDict | src/RunGeneration/test_run_format.py:44-57 | a dict's type tests raise nothing and report only wrong-type errors |
| RunFormat.MetadataConformsFields | src/RunGeneration/test_run_format.py:37-57 | conforming metadata is a dict whose five fields are each present with an acceptable value |
| RunFormat.MetadataNothing | src/RunGeneration/test_run_format.py:36-57 | the metadata gets no error exactly when it conforms |
| RunFormat.MetadataProblemsOfDict | src/RunGeneration/test_run_format.py:36-57 | dict metadata never raises and is never reported for a response or word-count problem |
| RunFormat.MissingFieldOfDict | src/RunGeneration/test_run_format.py:37-41 | dict metadata is reported missing a field exactly when the field is required and absent |
| RunFormat.NonStringsNothing | src/RunGeneration/test_run_format.py:95-97 | no citation error exactly when every citation is a string |
| RunFormat.NonStringsAt | src/RunGeneration/test_run_format.py:95-97 | a citation error names response `i` and an index `j` whose citation is not a string, and every such index gets one |
| RunFormat.ResponseNothing | src/RunGeneration/test_run_format.py:71-97 | a response gets no error exactly when it is a dict with a string text and a list of at most 3 string citations |
| RunFormat.ResponseProblemsAbout | src/RunGeneration/test_run_format.py:71-97 | every problem reported for response `i` is about response `i`; a non-dict gets exactly one error and adds no words |
| RunFormat.ResponsesProblemsAt | src/RunGeneration/test_run_format.py:71-97 | a problem is reported for the list exactly when it is reported for some response |
| RunFormat.ResponsesNothing | src/RunGeneration/test_run_format.py:71-97 | no response problem exactly when no response has one |
| RunFormat.ProblemsAboutResponse | src/RunGeneration/test_run_format.py:71-97 | every per-response problem names an index inside the list |
| RunFormat.ResponseListNothing | src/RunGeneration/test_run_format.py:59-101 | the `responses` value gets no error exactly when it is a non-empty list of conforming responses within 250 words |
| RunFormat.ResponseListProblemsOf | src/RunGeneration/test_run_format.py:59-101 | a `responses` problem is never a metadata problem, and the word-limit error carries the true total, which exceeds 250 |
| RunFormat.ResponsesNotChecked | src/RunGeneration/test_run_format.py:60-67 | a non-list or an empty list adds exactly one error after the metadata's, and no response is looked at |
| RunFormat.CheckedProblems | src/RunGeneration/test_run_format.py:35-103 | with both fields present and dict metadata, the errors are the metadata's followed by the responses' |
| RunFormat.MissingFieldReported | src/RunGeneration/test_run_format.py:39-41 | each absent required field adds one error, and only an absent one does |
| RunFormat.WordLimitReported | src/RunGeneration/test_run_format.py:99-101 | the word-limit error appears exactly when the total word count exceeds 250, and carries that count |
| RunFormat.ValidIffConforming | src/RunGeneration/test_run_format.py:14-103 | a run gets no error and no exception exactly when it conforms to the TREC-2025-DRAGUN format |
| ConvertRun.ConvertPipelineOutputToRun | src/RunGeneration/convert_to_run_format.py:16-85 | returns `Converted`: the run entry or the exception raised, and whether the word warning is printed |
| ConvertRun.CleanAll | src/RunGeneration/convert_to_run_format.py:42-66 | the response loop keeps, skips or fails on each response in order, stopping at the first exception, and its word total is the kept responses' words |
| ConvertRun.CleanStep | src/RunGeneration/convert_to_run_format.py:42-66 | one pass: a failure exactly when cleaning raises, nothing appended for a skipped response, the clean response appended otherwise, and the total kept up to date |
| ConvertRun.CleanResponse | src/RunGeneration/convert_to_run_format.py:43-66 | the loop body's outcome; a kept response is in the clean two-key form |
| ConvertRun.CleanWords | src/RunGeneration/convert_to_run_format.py:51-52 | a kept response adds `len(text.split())` words to the total |
| ConvertRun.KeptCitations | src/RunGeneration/convert_to_run_format.py:55-60 | the first 3 citations of a list, and none for any other value |
| ConvertRun.CleanedIsClean | src/RunGeneration/convert_to_run_format.py:46-66 | every kept response has exactly `text` then `citations`, a stripped non-blank text and at most 3 citations |
| ConvertRun.CleanedCases | src/RunGeneration/convert_to_run_format.py:43-66 | a response fails exactly when its `text` is not a string; it is kept exactly when its stripped text is non-blank, with that text and the first 3 citations of a list |
| ConvertRun.CleanedAllClean | src/RunGeneration/convert_to_run_format.py:42-66 | every response the loop returns is in the clean form |
| ConvertRun.CleanAgain | src/RunGeneration/convert_to_run_format.py:42-66 | a response already in the clean form comes out of the loop body unchanged |
| ConvertRun.CleanAllAgain | src/RunGeneration/convert_to_run_format.py:42-66 | a list of clean responses comes out of the loop unchanged |
| ConvertRun.ConvertIdempotent | src/RunGeneration/convert_to_run_format.py:16-85 | converting the converter's own entry again with the same arguments gives the same entry and the same warning |
| ConvertRun.CleanConforms | src/RunGeneration/convert_to_run_format.py:55-66 | a clean response passes the run-format response check exactly when its citations are strings |
| ConvertRun.CleanResponsesConform | src/RunGeneration/convert_to_run_format.py:62-71 | clean responses pass as a list exactly when there is one, all cite strings and the words fit |
| ConvertRun.EntryConforms | src/RunGeneration/convert_to_run_format.py:74-85 | an entry of clean responses conforms exactly for good metadata, some string-cited responses and at most 250 words |
| ConvertRun.ConvertedConforms | src/RunGeneration/convert_to_run_format.py:16-85 | every kept response is clean; the warning is printed exactly when the words exceed 250; the entry conforms exactly when the metadata is good, some response is kept, all citations are strings and there is no warning |
| QuestionExtract.CloseFrom | src/QuestionGeneration/QuestionSetGenerator.py:69-76 | the scan from position `i` finds an end only where the first balanced span closes, and finds none only when the count never returns to 0 |
| QuestionExtract.FirstClose | src/QuestionGeneration/QuestionSetGenerator.py:66-76 | `Some(end)` exactly for the first balanced span from the `{` at `start`; `None` when the count never returns to 0 |
| QuestionExtract.ClosesOnce | src/QuestionGeneration/QuestionSetGenerator.py:66-76 | the first balanced span from a `{` is unique |
| QuestionExtract.FirstCloseAt | src/QuestionGeneration/QuestionSetGenerator.py:66-76 | when a balanced span exists, the scan finds exactly it |
| QuestionExtract.FirstCloseNone | src/QuestionGeneration/QuestionSetGenerator.py:66-78 | when the count never returns to 0, the scan finds no end |
| QuestionExtract.ScanBraces | src/QuestionGeneration/QuestionSetGenerator.py:67-76 | the brace loop stops with count 0 at the end of the first balanced span, or leaves a positive count (braces inside string literals included) and `end` at `start` |
| QuestionExtract.SpaceRun | src/QuestionGeneration/QuestionSetGenerator.py:80 | `\s*` takes the whole whitespace run at the start and stops at the first other character |
| QuestionExtract.TrailingComma | src/QuestionGeneration/QuestionSetGenerator.py:80 | a match of `,\s*([}\]])` at the start: a comma, only whitespace, then `}` or `]` |
| QuestionExtract.FixKeepsEssential | src/QuestionGeneration/QuestionSetGenerator.py:80 | the comma fix removes only commas and whitespace: everything else is kept, in order |
| QuestionExtract.FixWithoutCommas | src/QuestionGeneration/QuestionSetGenerator.py:80 | text without a comma is left unchanged by the fix |
| QuestionExtract.FixDropsTrailingComma | src/QuestionGeneration/QuestionSetGenerator.py:80 | a comma followed by whitespace and a closing bracket is replaced by the bracket, and the comma-free text before it is kept |
| QuestionExtract.FixKeepsPrefix | src/QuestionGeneration/QuestionSetGenerator.py:80 | comma-free text before a match is kept as it is |
| QuestionExtract.FixAtComma | src/QuestionGeneration/QuestionSetGenerator.py:80 | a trailing comma and its whitespace are replaced by the closing bracket |
| QuestionExtract.ExtractJson | src/QuestionGeneration/QuestionSetGenerator.py:57-90 | returns `Extracted`: the direct parse, the first balanced span's parse, the parse after the comma fix, or the matching error dict with the raw text |
| QuestionExtract.FirstAtIndex | src/QuestionGeneration/QuestionSetGenerator.py:62 | `text.find('{')` gives the first `{` |
| QuestionExtract.ExtractedNoObject | src/QuestionGeneration/QuestionSetGenerator.py:62-64 | text that does not parse and has no `{` gives the no-object error dict holding the raw text |
| QuestionExtract.ExtractedSpan | src/QuestionGeneration/QuestionSetGenerator.py:66-90 | text that does not parse gives the parse of the first balanced span from the first `{`, or an error naming that span's parse failure |
| QuestionExtract.ExtractedFixed | src/QuestionGeneration/QuestionSetGenerator.py:78-84 | when the braces never balance, the result is the parse of the comma-fixed text, or an error naming that failure |
| QuestionExtract.Answer | src/QuestionGeneration/QuestionSetGenerator.py:94-119 | every outcome of `_call_openai` is a dict |
| QuestionExtract.CallOpenAI | src/QuestionGeneration/QuestionSetGenerator.py:94-119 | returns `Answer`: the rate-limit or failure message, the empty-reply error, the not-a-dict error, the missing-keys error, or the extracted dict |
| QuestionExtract.LookupErrorDict | src/QuestionGeneration/QuestionSetGenerator.py:64-90 | an extraction error dict has an `error` key and neither `answered` nor `unanswered` |
| QuestionExtract.AnswerCases | src/QuestionGeneration/QuestionSetGenerator.py:107-115 | a reply passes exactly when it is non-empty content whose extraction is a dict with `answered` or `unanswered`, and then it is that dict; every other outcome has an `error` key and no answers |
| QuestionExtract.ExtractionErrorMasked | src/QuestionGeneration/QuestionSetGenerator.py:110-114 | an extraction error dict is always reported as missing both keys, with the raw text, and its own message is lost |
| QuestionSets.BatchesCover | src/QuestionGeneration/QuestionSetGenerator.py:141-142 | the batches concatenate to the questions; none is empty or longer than `batch_size`, and all but the last hold exactly `batch_size` |
| QuestionSets.ProcessGroup | src/QuestionGeneration/QuestionSetGenerator.py:138-149 | returns `Grouped`: `range`'s ValueError for a zero batch size, the first error result, an exception from `extend`, or both lists |
| QuestionSets.AskStep | src/QuestionGeneration/QuestionSetGenerator.py:144-148 | one batch: the call's result taken in as the loop body does |
| QuestionSets.AbsorbStep | src/QuestionGeneration/QuestionSetGenerator.py:145-148 | a result with `error` stops the loop with that result; otherwise its `answered` and `unanswered` are appended |
| QuestionSets.BatchesNext | src/QuestionGeneration/QuestionSetGenerator.py:141-142 | the batches from index `i` are `questions[i:i+batch_size]` followed by the batches after it |
| QuestionSets.BatchesStep | src/QuestionGeneration/QuestionSetGenerator.py:141-142 | the loop's batches are those done, the current slice and the rest |
| QuestionSets.ProgressedSettled | src/QuestionGeneration/QuestionSetGenerator.py:145-146 | once a batch has stopped or raised, later batches change nothing |
| QuestionSets.ProcessGroups | src/QuestionGeneration/QuestionSetGenerator.py:121-136 | returns `GroupsProcessed`: every group's `questions` gathered in order (an exception for a group without `get` or with a non-iterable value), then the batch loop |
| QuestionSets.GatheredFails | src/QuestionGeneration/QuestionSetGenerator.py:123-125 | a group that cannot be read ends the gathering with its exception |
| QuestionSets.FirstError | src/QuestionGeneration/QuestionSetGenerator.py:130-146 | a loop that stopped returned the first result with an `error` key, and every earlier batch was taken in |
| QuestionSets.BatchOrder | src/QuestionGeneration/QuestionSetGenerator.py:130-149 | a loop that ran through met no error result, and its lists are every batch's `answered` and `unanswered` concatenated in batch order |
| QuestionSets.AbsorbGoing | src/QuestionGeneration/QuestionSetGenerator.py:145-148 | a result taken in without stopping had no `error`, and its lists were appended |
| QuestionSets.GroupedSpec | src/QuestionGeneration/QuestionSetGenerator.py:138-149 | the batches cover the questions in order; the result is either both concatenated lists or the first error result |
| QuestionSets.ChunksCover | src/QuestionGeneration/QuestionSetGenerator.py:153-154 | the chunks of a list of groups cover every group once, in order, and none is empty, so `if chunk` drops nothing |
| QuestionSets.ProcessChunks | src/QuestionGeneration/QuestionSetGenerator.py:155-156 | each chunk's `process_groups` outcome or exception, in chunk order |
| QuestionSets.MergeOutcomes | src/QuestionGeneration/QuestionSetGenerator.py:157-166 | the merge loop returns `Collected`: it stops at the first exception or error dict, appends other dicts' lists and skips everything else |
| QuestionSets.CollectedSettled | src/QuestionGeneration/QuestionSetGenerator.py:160-163 | once the merge has stopped, later outcomes change nothing |
| QuestionSets.FirstFailure | src/QuestionGeneration/QuestionSetGenerator.py:159-163 | a stopped merge returned the first stopping outcome: the exception's description, or that chunk's own error dict |
| QuestionSets.LookupError | src/QuestionGeneration/QuestionSetGenerator.py:161 | the exception dict has an `error` key |
| QuestionSets.Generate | src/QuestionGeneration/QuestionSetGenerator.py:151-172 | returns `Generated`: `get`/`len`/`range`/slicing exceptions, the first failure, or the merged lists with the empty ones left out |
| QuestionSets.GeneratedShape | src/QuestionGeneration/QuestionSetGenerator.py:151-172 | the result is a dict that either has an `error` key or holds only `answered` and `unanswered`, each a non-empty list |
| GenerateRuns.LoadTopics | src/RunGeneration/generate_runs.py:31-61 | a missing file is exit status 1; otherwise the topics are those of the file's lines, in file order |
| GenerateRuns.TopicsFrom | src/RunGeneration/generate_runs.py:44-53 | a topic is loaded exactly when some non-blank stripped line parses to it |
| GenerateRuns.CutSentences | src/RunGeneration/generate_runs.py:131-145 | the sentence loop yields `Sentences(report)`: the finished sentences kept and stripped, then the stripped non-blank remainder |
| GenerateRuns.SentenceKept | src/RunGeneration/generate_runs.py:137-141 | a sentence with its terminator is kept, stripped, exactly when it is then longer than 10 characters |
| GenerateRuns.SentencesJoin | src/RunGeneration/generate_runs.py:135-141 | after a terminator the sentences start afresh: a report cut there splits into the two parts' sentences |
| GenerateRuns.KeepFinished | src/RunGeneration/generate_runs.py:138-140 | a kept sentence ends with its terminator and holds no other |
| GenerateRuns.StripTail | src/RunGeneration/generate_runs.py:138 | text ending in a non-space loses only leading whitespace to `strip()` |
| GenerateRuns.ScanShape | src/RunGeneration/generate_runs.py:135-141 | every finished piece ends with its only terminator, and the sentence being built has none |
| GenerateRuns.SentencesShape | src/RunGeneration/generate_runs.py:131-145 | every sentence but the last is longer than 10 and ends with its only terminator; the last is that or a non-blank unterminated remainder |
| GenerateRuns.NumberResponses | src/RunGeneration/generate_runs.py:147-161 | the response loop yields one response per sentence, in order |
| GenerateRuns.SplitReportIntoResponses | src/RunGeneration/generate_runs.py:120-161 | the responses are those of the report's sentences, numbered from 0 |
| GenerateRuns.ResponsesAt | src/RunGeneration/generate_runs.py:148-159 | one response per sentence, the i-th built from the i-th sentence |
| GenerateRuns.ResponseContent | src/RunGeneration/generate_runs.py:151-158 | each response holds its sentence as text, and exactly one citation `docid#i_hash` among the first three, none after |
| GenerateRuns.CitationsDistinct | src/RunGeneration/generate_runs.py:153 | citations at different positions differ, whatever the hashes |
| GenerateRuns.ResponsesConform | src/RunGeneration/generate_runs.py:148-159 | every response built from sentences has the run format's response shape |
| GenerateRuns.CitationsAreStrings | src/RunGeneration/generate_runs.py:229-232 | the citation loop answers whether every citation is a string |
| GenerateRuns.CheckResponse | src/RunGeneration/generate_runs.py:206-232 | the verdict on one response: an exception, False, or the words its text adds |
| GenerateRuns.CheckAt | src/RunGeneration/generate_runs.py:205-232 | after a passing prefix, one response ends the check or adds its words to the total |
| GenerateRuns.ValidateResponses | src/RunGeneration/generate_runs.py:193-238 | returns `Validated`: False at the first failing response or when the words exceed 250, the exception raised, or True |
| GenerateRuns.TallyAll | src/RunGeneration/generate_runs.py:205-233 | when the per-response verdict passes exactly the good responses, the loop passes exactly when all are good, and then totals their words |
| GenerateRuns.VerdictConforms | src/RunGeneration/generate_runs.py:206-232 | a response passes exactly when it conforms to the run format's response check, and then adds its text's words |
| GenerateRuns.TotalWordsTotal | src/RunGeneration/generate_runs.py:216-217 | the check's word total equals the run format's |
| GenerateRuns.CheckedConforms | src/RunGeneration/generate_runs.py:205-233 | all responses pass exactly when all conform, and then the total is the run format's word count |
| GenerateRuns.ValidatedIff | src/RunGeneration/generate_runs.py:193-238 | the check returns True exactly when every response conforms and the words total at most 250 |
| GenerateRuns.ValidatedEmpty | src/RunGeneration/generate_runs.py:203-238 | unlike the run format, the check accepts an empty list of responses |
| GenerateRuns.SplitValidated | src/RunGeneration/generate_runs.py:292-295 | the responses of any report pass the check exactly when their words total at most 250 |
| GenerateRuns.MetadataConforms | src/RunGeneration/generate_runs.py:181-188 | the entry's metadata conforms exactly for a known run type, a 0/1 starter-kit flag and a string topic id |
| GenerateRuns.RunEntryConforms | src/RunGeneration/generate_runs.py:164-190 | `create_run_entry` raises exactly for a non-dict topic; otherwise the topic id is its `docid` or "unknown", the other fields are copied, and the responses are kept |
| GenerateRuns.TopicRunConforms | src/RunGeneration/generate_runs.py:287-309 | an entry written for a topic holds its `docid` (or "unknown") and conforms exactly for good metadata and a non-empty response list |
| GenerateRuns.ProcessTopic | src/RunGeneration/generate_runs.py:287-316 | the per-topic `try`: split, check, build the entry; nothing when the check fails or something raises |
| GenerateRuns.TopicStep | src/RunGeneration/generate_runs.py:285-316 | one topic: its report, then the per-topic `try`; nothing when either fails |
| GenerateRuns.RunsChecked | src/RunGeneration/generate_runs.py:284-316 | every entry written comes from a topic whose report was produced and passed the check |
| GenerateRuns.EntryFrom | src/RunGeneration/generate_runs.py:284-316 | every collected entry comes from one topic's contribution |
| GenerateRuns.TopicEntriesIn | src/RunGeneration/generate_runs.py:287-316 | a topic contributes only the entry of its own checked report |
| GenerateRuns.AllDictsIff | src/RunGeneration/generate_runs.py:285 | the front-to-back dict test passes exactly when every topic is a dict |
| GenerateRuns.CollectRuns | src/RunGeneration/generate_runs.py:283-334 | no file is written exactly when some topic is not a dict, because `topic.get` raises outside the per-topic `try`; otherwise the written entries are the topics' entries in order |
| GenerateRuns.GenerateRunEntries | src/RunGeneration/generate_runs.py:256-334 | on the first `max_topics` topics when that is truthy: nothing written exactly when a chosen topic is not a dict, otherwise `Runs` of the chosen topics |
| IrTokenBucket.PurgeCount | src/IR_Ensemble/QA_Assistant/token_bucket.py:49-54 | the purge loop drops exactly the longest prefix of events that have aged out (`now - ts >= window`), and stops at the first fresh one |
| IrTokenBucket.PurgeCountUnique | src/IR_Ensemble/QA_Assistant/token_bucket.py:52 | any count with that property is the purge count: the loop's stopping point is determined by the queue |
| IrTokenBucket.LastMatch | src/IR_Ensemble/QA_Assistant/token_bucket.py:98-101 | the newest-to-oldest scan finds the last event with the id, or none exactly when no event carries it |
| IrTokenBucket.LastMatchAt | src/IR_Ensemble/QA_Assistant/token_bucket.py:98-101 | an event with the id and none after it is the one the scan stops at |
| IrTokenBucket.PurgedKeepsFresh | src/IR_Ensemble/QA_Assistant/token_bucket.py:49-54 | purging after appending a fresh event is purging first and keeping that event last |
| IrTokenBucket.CreditNewest | src/IR_Ensemble/QA_Assistant/token_bucket.py:103-111 | crediting the newest event refunds `w` or `min(weight, w)`, dropping the event on a full refund and shrinking it otherwise |
| IrTokenBucket.CreditExpired | src/IR_Ensemble/QA_Assistant/token_bucket.py:90-91 | an id no queued event carries (expired or never issued) refunds nothing and leaves the queue as it was |
| IrTokenBucket.UniqueIds | src/IR_Ensemble/QA_Assistant/token_bucket.py:45-46 | ids drawn from the increasing counter are distinct, so `credit_by_id` touches one reservation |
| IrTokenBucket.CreditAccounts | src/IR_Ensemble/QA_Assistant/token_bucket.py:103-111 | the queued weights fall by exactly the refund, and stay non-negative |
| IrTokenBucket.CreditKeepsOthers | src/IR_Ensemble/QA_Assistant/token_bucket.py:98-112 | every event with another id survives a credit |
| IrTokenBucket.CreditAscending | src/IR_Ensemble/QA_Assistant/token_bucket.py:106-111 | a credit keeps the events in increasing id order with all ids below the counter |
| IrTokenBucket.RefundBounds | src/IR_Ensemble/QA_Assistant/token_bucket.py:103 | with non-negative weights and no negative refund request the refund is never negative |
| IrTokenBucket.TokenBucket.constructor | src/IR_Ensemble/QA_Assistant/token_bucket.py:36-46 | a new bucket is empty with the counter at 0, and within its capacity when the capacity is not negative |
| IrTokenBucket.TokenBucket.CurrentLoad | src/IR_Ensemble/QA_Assistant/token_bucket.py:118-120 | the load is the sum of the queued weights |
| IrTokenBucket.TokenBucket.Purge | src/IR_Ensemble/QA_Assistant/token_bucket.py:49-54 | the queue becomes its purged suffix, the running total still equals its sum, and a bucket within capacity stays so |
| IrTokenBucket.TokenBucket.TryReserve | src/IR_Ensemble/QA_Assistant/token_bucket.py:56-74 | one pass of `_reserve`: after the purge, the reservation is granted with id `str(next_id)` exactly when it fits, else the wait is `window - (now - oldest) + 1`, and an empty queue raises IndexError; a grant keeps the load within capacity |
| IrTokenBucket.TokenBucket.FindNewest | src/IR_Ensemble/QA_Assistant/token_bucket.py:98-101 | the scan loop returns `LastMatch` |
| IrTokenBucket.TokenBucket.CreditById | src/IR_Ensemble/QA_Assistant/token_bucket.py:87-115 | after the purge the matched event is refunded, the total equals the queued weights left, it never rises for a non-negative request, and the capacity bound is kept |
| QaTokenBucket.PurgeCount | src/QA_Assistant/token_bucket.py:36-41 | the purge loop drops exactly the longest prefix of aged-out events |
| QaTokenBucket.PurgeCountUnique | src/QA_Assistant/token_bucket.py:39 | any count with that property is the purge count |
| QaTokenBucket.PurgeKeepsGap | src/QA_Assistant/token_bucket.py:36-41 | a purge subtracts exactly the dropped weights: the gap between the queued weights and the total is unchanged |
| QaTokenBucket.ReserveAccounts | src/QA_Assistant/token_bucket.py:48-61 | one pass reserves exactly when the purged total plus the weight fits, appending the event and staying within capacity; otherwise only the purge happens |
| QaTokenBucket.ReserveFits | src/QA_Assistant/token_bucket.py:53-57 | with nothing to purge and room left, the reservation is appended and the total grows by the weight |
| QaTokenBucket.CreditKeepsQueue | src/QA_Assistant/token_bucket.py:81-86 | `credit` never touches the queue, a non-positive weight changes nothing, and the total is clamped at 0 |
| QaTokenBucket.CreditThenPurgeGoesNegative | src/QA_Assistant/token_bucket.py:81-86 | crediting a reservation and then letting it age out drives the running total to `-w` |
| QaTokenBucket.CreditOverAdmits | src/QA_Assistant/token_bucket.py:53-86 | after a full credit a second full-capacity reservation is admitted inside the same window, so the queue holds twice the capacity |
| QaTokenBucket.TokenBucket.constructor | src/QA_Assistant/token_bucket.py:27-33 | a new bucket is empty with a zero total |
| QaTokenBucket.TokenBucket.Purge | src/QA_Assistant/token_bucket.py:36-41 | the state becomes `Purged` of the old state |
| QaTokenBucket.TokenBucket.TryReserve | src/QA_Assistant/token_bucket.py:43-63 | one pass of `_wait_for_slot` moves the state and returns the attempt as `Reserve` does |
| QaTokenBucket.TokenBucket.Credit | src/QA_Assistant/token_bucket.py:81-86 | the state becomes `Credited` of the old state |
| RateLimits.PromptBuffer | src/IR_Ensemble/QA_Assistant/rate_limits.py:74 | `int(x * 0.025)` on a whole count is the number of whole 40s in it |
| RateLimits.Reservation | src/IR_Ensemble/QA_Assistant/rate_limits.py:124-131 | the reservation covers the prompt and the stage's output budget and adds 2.5% of both, truncated |
| RateLimits.ReservationMonotone | src/IR_Ensemble/QA_Assistant/rate_limits.py:127-131 | a longer prompt never reserves fewer tokens |
| RateLimits.CapAdmits | src/IR_Ensemble/QA_Assistant/rate_limits.py:133-137 | the stage cap check passes exactly the prompts up to the stage's largest admissible prompt |
| RateLimits.CapsAboveBuckets | src/IR_Ensemble/QA_Assistant/rate_limits.py:42-69 | the search stage's cap (75 000) is above the plan token bucket (50 000) and the update stage's (150 000) above the personal bucket (100 000), so a call can pass the cap check and never fit its bucket |
| RateLimits.Stopped | src/IR_Ensemble/QA_Assistant/rate_limits.py:147-160 | a reservation that does not fit either waits or raises the empty queue's IndexError |
| RateLimits.Answered | src/IR_Ensemble/QA_Assistant/rate_limits.py:150-174 | the call answers exactly when the client gives usage, a `None` result is the "No response" ValueError, and a client exception propagates |
| RateLimits.CreditNewestTo | src/IR_Ensemble/QA_Assistant/rate_limits.py:215-228 | crediting a surplus below the reservation to the newest event leaves that event holding exactly the used tokens, and drops it when nothing was used |
| RateLimits.SettledLeavesUsage | src/IR_Ensemble/QA_Assistant/rate_limits.py:170-228 | a reservation drawn inside the window and settled by a smaller usage leaves the bucket's older events purged at the settling time followed by the event holding only the used tokens |
| RateLimits.Limiters.NotShared | src/IR_Ensemble/QA_Assistant/rate_limits.py:82-90 | a per-assistant bucket is none of the four shared buckets |
| RateLimits.Limiters.constructor | src/IR_Ensemble/QA_Assistant/rate_limits.py:82-93 | the four shared buckets start empty with their configured capacities and window, and no assistant has a bucket yet |
| RateLimits.Limiters.PersonalBucket | src/IR_Ensemble/QA_Assistant/rate_limits.py:102-104 | the `defaultdict` returns the assistant's existing bucket, or creates, records and returns a fresh empty one of the personal capacity |
| RateLimits.Limiters.AcquireSearch | src/IR_Ensemble/QA_Assistant/rate_limits.py:147-149 | the plan token bucket is tried first, then the plan request bucket; the ids record the plan event only when both are granted |
| RateLimits.Limiters.AcquireOwn | src/IR_Ensemble/QA_Assistant/rate_limits.py:159-160 | the personal reservation, then one request from the global request bucket, each bucket's queue moving as its `_reserve` pass does |
| RateLimits.Limiters.AcquireOrdinary | src/IR_Ensemble/QA_Assistant/rate_limits.py:158-162 | global tokens, personal tokens and one global request, in that order, stopping at the first bucket that does not grant; the ids hold both token events |
| RateLimits.Limiters.RefundSearch | src/IR_Ensemble/QA_Assistant/rate_limits.py:215-222 | no surplus changes nothing; otherwise the surplus goes back to the plan event, and a missing "plan" id is the KeyError |
| RateLimits.Limiters.RefundOwn | src/IR_Ensemble/QA_Assistant/rate_limits.py:224-228 | the surplus goes to the personal event and then the global one; a missing id raises before its own bucket and any later one is touched |
| RateLimits.Limiters.RefundAssistant | src/IR_Ensemble/QA_Assistant/rate_limits.py:202-228 | `refund_tokens` for an ordinary call fetches (or creates) the assistant's bucket and credits its events as `RefundOwn` does |
| RateLimits.Limiters.SearchBranch | src/IR_Ensemble/QA_Assistant/rate_limits.py:144-155 | a search call over the plan bucket's capacity never answers; an answer carries the client's usage; `None` is a ValueError unless a bucket blocked first; once the client was called, the plan request bucket holds its purged events plus the one request, and the plan token bucket holds the reservation, credited back by the surplus when the call answered |
| RateLimits.Limiters.SettleSearch | src/IR_Ensemble/QA_Assistant/rate_limits.py:176-219 | after the plan buckets granted, an answer with a positive surplus credits it to the plan event and any other outcome leaves the plan token bucket as it was |
| RateLimits.Limiters.OrdinaryBranch | src/IR_Ensemble/QA_Assistant/rate_limits.py:156-168 | an ordinary call over the personal capacity never answers; an answer carries the client's usage; `None` is a ValueError unless a bucket blocked first; once the client was called, the global request bucket holds its purged events plus the one request, and the global and personal token buckets each hold the reservation, credited back by the surplus when the call answered |
| RateLimits.Limiters.SettleOrdinary | src/IR_Ensemble/QA_Assistant/rate_limits.py:176-228 | after the three ordinary buckets granted, an answer with a positive surplus credits it to the personal and the global event, leaves the global request bucket alone, and any other outcome changes nothing |
| RateLimits.Limiters.GatedResponse | src/IR_Ensemble/QA_Assistant/rate_limits.py:107-184 | the cap ValueError comes exactly when the reservation is above the stage cap and then no bucket changes; search calls touch only the plan buckets and the others only the global and personal ones; once the client was called, each bucket the stage draws on holds its purged events plus the reservation (or the one request), and the token buckets are credited back by the surplus when the call answered |
| GenRateLimit.GenReservation | src/gen_ratelimit.py:19-20 | the reservation covers the prompt and the 5 000-token output budget, with 2.5% of the prompt, truncated, on top |
| GenRateLimit.GenReservationMonotone | src/gen_ratelimit.py:20 | a longer prompt never reserves fewer tokens |
| GenRateLimit.GenCapAdmits | src/gen_ratelimit.py:21-22 | the size check passes exactly the prompts up to 43 903 tokens |
| GenRateLimit.Response | src/gen_ratelimit.py:25-45 | the first attempt's response if it succeeded, else the retry's; none only when both raised |
| GenRateLimit.Blocked | src/gen_ratelimit.py:23-24 | a reservation that does not fit either waits or raises the empty queue's IndexError |
| GenRateLimit.RefundLeavesUsage | src/gen_ratelimit.py:47-56 | a call refunded before its reservation ages out leaves its own event holding exactly the tokens used (gone when none were used) |
| GenRateLimit.GenLimiters.constructor | src/gen_ratelimit.py:8-9 | both buckets start empty and valid |
| GenRateLimit.GenLimiters.RefundTokens | src/gen_ratelimit.py:50-56 | only a positive surplus is credited, and only to the call's own token event |
| GenRateLimit.GenLimiters.AcquireGen | src/gen_ratelimit.py:23-24 | one request is reserved first, then `toks` tokens; a refused request leaves the token bucket untouched |
| GenRateLimit.GenLimiters.GatedCallGen | src/gen_ratelimit.py:13-47 | the size ValueError exactly above 50 000 tokens, with no bucket touched; an answer is the retry's response with its surplus refunded; the `finally` raises UnboundLocalError exactly when both attempts raised after the reservations were granted |
| QaRateLimits.StreamReservation | src/QA_Assistant/Rate_limits.py:129-132 | a stream reserves its context, the system prompt and tools, the 250-token hidden-prompt buffer and its output budget |
| QaRateLimits.Yielded | src/QA_Assistant/Rate_limits.py:153-154 | the yielded reservation is the stream's own, raised by exactly the earlier reservation when one is passed |
| QaRateLimits.Outcome | src/QA_Assistant/Rate_limits.py:98-101 | the call is sent only when every bucket reserved; a full bucket waits and an empty queue's IndexError propagates |
| QaRateLimits.AcquireOrder | src/QA_Assistant/Rate_limits.py:97-100 | the request bucket is drawn first, the personal bucket only once the request is held, the global one only once both are; the call goes ahead exactly when all three fit |
| QaRateLimits.RefundCreditsBoth | src/QA_Assistant/Rate_limits.py:161-170 | a positive refund lowers both totals by the difference, clamped at 0, and leaves both queues as they were |
| QaRateLimits.QaLimiters.constructor | src/QA_Assistant/Rate_limits.py:44-49 | the request and global token buckets start empty with their capacities, and no assistant has a bucket yet |
| QaRateLimits.QaLimiters.PersonalBucket | src/QA_Assistant/Rate_limits.py:61-63 | the `defaultdict` returns the assistant's bucket, creating an empty one of the personal capacity on first use |
| QaRateLimits.QaLimiters.AcquireAll | src/QA_Assistant/Rate_limits.py:98-100 | the three nested `acquire`s move the buckets' states as `Acquired` does |
| QaRateLimits.QaLimiters.GatedOpenaiCall | src/QA_Assistant/Rate_limits.py:67-101 | the ValueError comes exactly when prompt plus completion exceed the personal cap, and then no bucket changes; otherwise the buckets move as the nested acquisitions do |
| QaRateLimits.QaLimiters.GatedOpenaiStream | src/QA_Assistant/Rate_limits.py:115-157 | the same for a stream's reservation, which yields that reservation plus any earlier one |
| QaRateLimits.QaLimiters.RefundTokens | src/QA_Assistant/Rate_limits.py:161-170 | a non-positive difference changes nothing, not even the assistant map; otherwise both the personal and the global bucket are credited |
| SearcherDaemon.Params | src/IR_Ensemble/QA_Assistant/Search/SearcherDaemon.java:56-57 | one parameter string per element `forEach` visits under `params` (none when it is missing) |
| SearcherDaemon.SearchOutcome | src/IR_Ensemble/QA_Assistant/Search/SearcherDaemon.java:61-64 | a search call exits the JVM exactly on a bad argument count, and otherwise reports "done" exactly when no query fails and every written payload re-serialises |
| SearcherDaemon.ResponseJson | src/IR_Ensemble/QA_Assistant/Search/SearcherDaemon.java:54-74 | the response echoes the id; a success has status 0 and the result, a failure status 1 with the exception's class name and message |
| SearcherDaemon.ReplyEchoesId | src/IR_Ensemble/QA_Assistant/Search/SearcherDaemon.java:54 | every response the job writes is an object whose `id` is the request's `id` as text |
| SearcherDaemon.HandleRequest | src/IR_Ensemble/QA_Assistant/Search/SearcherDaemon.java:53-78 | one submitted task reads id, call and params, dispatches on the call name and builds the reply `ReplyTo` describes |
| SearcherDaemon.Pass | src/IR_Ensemble/QA_Assistant/Search/SearcherDaemon.java:47-53 | a pass that does not stop uses up the header and then at most the rest of the input |
| SearcherDaemon.ServedRespond | src/IR_Ensemble/QA_Assistant/Search/SearcherDaemon.java:46-79 | a request read and answered puts its response frame before whatever the rest of the input produces |
| SearcherDaemon.FrameParts | src/IR_Ensemble/QA_Assistant/Search/SearcherDaemon.java:22-26 | a written frame is its `Content-Length` header followed by exactly the body |
| SearcherDaemon.ServedFrame | src/IR_Ensemble/QA_Assistant/Search/SearcherDaemon.java:46-79 | a framed request whose task answers yields its response frame, then the daemon goes on with the bytes after the body |
| SearcherDaemon.Responses | src/IR_Ensemble/QA_Assistant/Search/SearcherDaemon.java:53-78 | one response per request, the i-th being the job's answer to the i-th request |
| SearcherDaemon.OneResponsePerRequest | src/IR_Ensemble/QA_Assistant/Search/SearcherDaemon.java:46-81 | when the client's and the daemon's JSON codecs agree and no task exits the JVM, the framed requests are answered one frame each, in order, and the loop ends at end of input |
| SearcherDaemon.ServeRequest | src/IR_Ensemble/QA_Assistant/Search/SearcherDaemon.java:50-78 | after the header, `readNBytes`, Jackson's parse and the task proceed as `Pass` says |
| SearcherDaemon.ActOnReply | src/IR_Ensemble/QA_Assistant/Search/SearcherDaemon.java:53-78 | a job that halts stops the loop; one that answers writes its frame and uses up header and body |
| SearcherDaemon.ServeOne | src/IR_Ensemble/QA_Assistant/Search/SearcherDaemon.java:46-53 | one pass either ends the loop exactly as the whole loop ends, or writes its frame and leaves the loop to go on with the remaining input |
| SearcherDaemon.Serve | src/IR_Ensemble/QA_Assistant/Search/SearcherDaemon.java:30-82 | `main`'s loop writes exactly the bytes `Served` gives and stops for the reason it gives |
| Framing.Ascii | src/IR_Ensemble/QA_Assistant/daemon_wrapper.py:25 | an ASCII text encodes to one byte per character, each its code point |
| Framing.SpaceEnd | src/IR_Ensemble/QA_Assistant/Search/SearcherDaemon.java:17 | `\s*` runs to the first non-whitespace byte or the end |
| Framing.DigitEnd | src/IR_Ensemble/QA_Assistant/Search/SearcherDaemon.java:17 | `(\d+)` runs to the first non-digit byte or the end |
| Framing.Header | src/IR_Ensemble/QA_Assistant/Search/SearcherDaemon.java:24 | the header is "Content-Length: ", the length's decimal digits and CR LF CR LF |
| Framing.Frame | src/IR_Ensemble/QA_Assistant/daemon_wrapper.py:24-26 | a frame is the header for the body's length followed by the body itself |
| Framing.JavaHeaderEnd | src/IR_Ensemble/QA_Assistant/Search/SearcherDaemon.java:89-103 | the header reader stops right after the first "\n\n" or "\r\n\r\n", and reports end of input exactly when neither occurs |
| Framing.JavaMatchAt | src/IR_Ensemble/QA_Assistant/Search/SearcherDaemon.java:16-17 | a match of the anchored case-insensitive pattern at `p` starts with the field name and captures a run of digits after it |
| Framing.JavaFind | src/IR_Ensemble/QA_Assistant/Search/SearcherDaemon.java:106-107 | `find()` returns a match at some position from the start on |
| Framing.ReadContentLength | src/IR_Ensemble/QA_Assistant/Search/SearcherDaemon.java:85-111 | the byte loop consumes exactly through the first delimiter and gives the pattern's and `parseInt`'s verdict on those bytes; at end of input it gives EOF |
| Framing.PyMatchAt | src/IR_Ensemble/QA_Assistant/daemon_wrapper.py:10 | a match of the unanchored case-insensitive pattern at `p` starts with the field name and captures a run of digits |
| Framing.PySearch | src/IR_Ensemble/QA_Assistant/daemon_wrapper.py:18 | `re.search` finds the leftmost match, or none exactly when no position matches |
| Framing.ReadFrame | src/IR_Ensemble/QA_Assistant/daemon_wrapper.py:12-22 | a frame read returns a body and leaves a rest that together are the stream after the header; no "\r\n\r\n" is an incomplete read |
| Framing.DigitsValueAscii | src/IR_Ensemble/QA_Assistant/Search/SearcherDaemon.java:110 | the digits of a decimal numeral read back as its value |
| Framing.PrefixFacts | src/IR_Ensemble/QA_Assistant/Search/SearcherDaemon.java:24 | the written prefix shows the field name, then a space, and no line break or digit |
| Framing.DigitEndOfRun | src/IR_Ensemble/QA_Assistant/Search/SearcherDaemon.java:17 | a maximal run of digits is the one `(\d+)` takes |
| Framing.CaptureAfterPrefix | src/IR_Ensemble/QA_Assistant/Search/SearcherDaemon.java:17 | after "Content-Length: ", digits ended by a line break are what both the Java and the Python pattern capture |
| Framing.HeaderLayout | src/IR_Ensemble/QA_Assistant/daemon_wrapper.py:25 | the header is the prefix, the digits of the length, and CR LF CR LF |
| Framing.HeaderCapture | src/IR_Ensemble/QA_Assistant/daemon_wrapper.py:10 | both patterns capture exactly the length's digits from a written header, and they read back as the length |
| Framing.JavaParsesHeader | src/IR_Ensemble/QA_Assistant/Search/SearcherDaemon.java:105-110 | a header written for a length that fits a Java `int` parses back to that length |
| Framing.JavaHeaderEndOfFrame | src/IR_Ensemble/QA_Assistant/Search/SearcherDaemon.java:89-101 | the Java reader stops exactly at the end of a written header, whatever follows |
| Framing.JavaHeaderEndFirst | src/IR_Ensemble/QA_Assistant/Search/SearcherDaemon.java:89-101 | the first delimiter is where the reader stops |
| Framing.JavaReadsFrame | src/IR_Ensemble/QA_Assistant/Search/SearcherDaemon.java:47-50 | the Java side reads back the header the Python side wrote, and the body length it announced |
| Framing.FrameDelimiter | src/IR_Ensemble/QA_Assistant/daemon_wrapper.py:17 | the first "\r\n\r\n" of a frame is the one that ends its header |
| Framing.PyReadsFrame | src/IR_Ensemble/QA_Assistant/daemon_wrapper.py:12-26 | reading a frame the daemon wrote gives back exactly its payload and leaves the rest of the stream |
| Framing.BareNewlines | src/IR_Ensemble/QA_Assistant/Search/SearcherDaemon.java:93 | a sample input whose header ends in a bare "\n\n" |
| Framing.JavaEndsAtBareNewlines | src/IR_Ensemble/QA_Assistant/Search/SearcherDaemon.java:93 | the Java reader accepts a bare "\n\n" as the end of the header |
| Framing.JavaReadsBareNewlinesLength | src/IR_Ensemble/QA_Assistant/Search/SearcherDaemon.java:105-110 | and reads the announced length from such a header |
| Framing.SingleDigitValue | src/IR_Ensemble/QA_Assistant/Search/SearcherDaemon.java:105-110 | a one-digit length ended by a line feed is read by the anchored pattern |
| Framing.PythonRejectsBareNewlines | src/IR_Ensemble/QA_Assistant/daemon_wrapper.py:17 | the Python reader never finds "\r\n\r\n" there, so its read is incomplete |
| Framing.BareNewlinesDivergence | src/IR_Ensemble/QA_Assistant/daemon_wrapper.py:9-17 | the two readers disagree on a header ended by a bare "\n\n": the daemon accepts it and the client does not |
| DaemonClient.RequestJson | src/IR_Ensemble/QA_Assistant/daemon_wrapper.py:99-100 | the request body carries the id, the call name and the parameters as strings, in order |
| DaemonClient.Delivered | src/IR_Ensemble/QA_Assistant/daemon_wrapper.py:117-129 | handling a response only pops ids and resolves futures: no future is added or dropped and nothing is written |
| DaemonClient.FailedAll | src/IR_Ensemble/QA_Assistant/daemon_wrapper.py:130-138 | failing the pending futures keeps the table and every future's place, and writes nothing |
| DaemonClient.ReadAll | src/IR_Ensemble/QA_Assistant/daemon_wrapper.py:111-138 | the reader loop never adds a pending id or a future, and writes nothing |
| DaemonClient.SubmittedRegisters | src/IR_Ensemble/QA_Assistant/daemon_wrapper.py:95-105 | a submission adds one waiting future reachable under its id and leaves every earlier future as it was |
| DaemonClient.DeliveredKeeps | src/IR_Ensemble/QA_Assistant/daemon_wrapper.py:117-129 | a delivery keeps the table consistent and never changes a future that is already done |
| DaemonClient.FailedAllKeeps | src/IR_Ensemble/QA_Assistant/daemon_wrapper.py:130-138 | after the reader fails, every future the table still refers to is done |
| DaemonClient.ReadAllSettles | src/IR_Ensemble/QA_Assistant/daemon_wrapper.py:111-138 | when the daemon's output ends or cannot be read, no future the table referred to is left waiting, and no completed future changes |
| DaemonClient.SettledAfterDelivery | src/IR_Ensemble/QA_Assistant/daemon_wrapper.py:117-129 | what the loop settles after a delivery it settles from before it |
| DaemonClient.IdCollisionOrphans | src/IR_Ensemble/QA_Assistant/daemon_wrapper.py:95-97 | two submissions drawing the same random id: the first response resolves the second future, and the first future waits forever |
| DaemonClient.OrphanStaysWaiting | src/IR_Ensemble/QA_Assistant/daemon_wrapper.py:117-138 | a waiting future no pending id refers to is never resolved or failed by the reader |
| DaemonClient.ResolvesEach | src/IR_Ensemble/QA_Assistant/daemon_wrapper.py:111-129 | well-formed responses to distinct pending ids resolve each id's future with its own response's value |
| DaemonClient.DeliveredWaiting | src/IR_Ensemble/QA_Assistant/daemon_wrapper.py:117-129 | after one delivery the remaining ids are still pending on waiting futures |
| DaemonClient.ResolvedStays | src/IR_Ensemble/QA_Assistant/daemon_wrapper.py:118-119 | a future resolved before the remaining frames keeps its value |
| DaemonClient.ReadsResponse | src/IR_Ensemble/QA_Assistant/daemon_wrapper.py:114-129 | one response frame written by the daemon is read as a delivery of its value under its id |
| DaemonClient.SubmittedAll | src/IR_Ensemble/QA_Assistant/daemon_wrapper.py:90-105 | submitting calls adds one future per call |
| DaemonClient.RequestStreamSnoc | src/IR_Ensemble/QA_Assistant/daemon_wrapper.py:101-104 | each submission appends exactly its own frame to what was written |
| DaemonClient.CallsJson | src/IR_Ensemble/QA_Assistant/daemon_wrapper.py:99-100 | the i-th request body is the i-th call's |
| DaemonClient.SubmittedAllFresh | src/IR_Ensemble/QA_Assistant/daemon_wrapper.py:90-105 | calls with distinct ids on a fresh client: future i waits under call i's id, and the bytes written are the calls' frames in order |
| DaemonClient.SubmittedNext | src/IR_Ensemble/QA_Assistant/daemon_wrapper.py:95-97 | submitting one more call keeps the earlier ids on their futures |
| DaemonClient.SentGrows | src/IR_Ensemble/QA_Assistant/daemon_wrapper.py:101-105 | the bytes written for the calls are those for all but the last, then the last one's frame |
| DaemonClient.DaemonReadsRequest | src/IR_Ensemble/QA_Assistant/Search/SearcherDaemon.java:54-57 | the daemon reads back the id, call name and parameters the client wrote |
| DaemonClient.FutureValue | src/IR_Ensemble/QA_Assistant/daemon_wrapper.py:121-129 | a successful call with a non-empty result resolves to that text; an empty result or a failure resolves to the whole response |
| DaemonClient.ResponseEchoes | src/IR_Ensemble/QA_Assistant/Search/SearcherDaemon.java:54 | the daemon's response to a call carries that call's id |
| DaemonClient.EveryCallResolved | src/IR_Ensemble/QA_Assistant/daemon_wrapper.py:90-138 | end to end: calls with distinct ids, with agreeing codecs and no JVM exit, are all answered, the daemon stops at end of input, and future i holds call i's own response value |
| DaemonClient.AnsweredResolved | src/IR_Ensemble/QA_Assistant/daemon_wrapper.py:90-138 | the same for any task that answers every call and echoes its id |
| DaemonClient.ResolvesCalls | src/IR_Ensemble/QA_Assistant/daemon_wrapper.py:111-129 | responses in call order resolve future i with response i |
| DaemonClient.SearchDelivered | src/IR_Ensemble/QA_Assistant/daemon_wrapper.py:149-152 | a search request reaches the searcher with exactly the client's queries; the JVM exits when there are none or too many, else the status is 0 exactly when every query succeeds and every written payload re-serialises |
| DaemonClient.SelectionDelivered | src/IR_Ensemble/QA_Assistant/daemon_wrapper.py:154-171 | `select_documents` returns the selection's JSON items when the daemon's selection succeeds, and the text of the failure response when it fails, never an exception |
| DaemonClient.JVMDaemon.constructor | src/IR_Ensemble/QA_Assistant/daemon_wrapper.py:48-65 | a new client has no pending id, no future and nothing written |
| DaemonClient.JVMDaemon.Submit | src/IR_Ensemble/QA_Assistant/daemon_wrapper.py:90-105 | the future gets the next ticket and the state moves as `Submitted` says |
| DaemonClient.JVMDaemon.OnFrame | src/IR_Ensemble/QA_Assistant/daemon_wrapper.py:115-129 | an undecodable, non-object or unhashable-id body stops the reader with the state unchanged; any other body is delivered |
| DaemonClient.JVMDaemon.FailPending | src/IR_Ensemble/QA_Assistant/daemon_wrapper.py:130-138 | every pending future not yet done fails with the error |
| DaemonClient.JVMDaemon.ReadLoop | src/IR_Ensemble/QA_Assistant/daemon_wrapper.py:110-140 | the reader task leaves the state `ReadAll` gives |
| DocumentSelection.RemoveFirst | src/IR_Ensemble/QA_Assistant/Search/DocumentSelection.java:48 | `List.remove` reports whether the flag occurs and removes only its first occurrence, leaving the list alone otherwise |
| DocumentSelection.SegmentsOf | src/IR_Ensemble/QA_Assistant/Search/DocumentSelection.java:62-80 | joining the futures in order gives every id's segment, in id order, or the first failing id's exception wrapped in a CompletionException |
| DocumentSelection.FetchSegments | src/IR_Ensemble/QA_Assistant/Search/DocumentSelection.java:63-80 | the join loop computes `SegmentsOf` |
| DocumentSelection.Selected | src/IR_Ensemble/QA_Assistant/Search/DocumentSelection.java:46-85 | no ids and too many segment ids are IllegalArgumentExceptions; segment mode returns every id's segment or the first failure; full mode assembles the first id only |
| DocumentSelection.Run | src/IR_Ensemble/QA_Assistant/Search/DocumentSelection.java:46-85 | `run` computes `Selected` |
| DocumentSelection.SegmentCapRejects | src/IR_Ensemble/QA_Assistant/Search/DocumentSelection.java:49-52 | with the flag present and more than seven arguments, the call is rejected before any lookup |
| CliDocumentSelection.ParseArgs | src/QA_Assistant/Search/DocumentSelection.java:38-47 | segment mode is on exactly when some argument is the flag, and the ids are every other argument, in order |
| CliDocumentSelection.IdsAreNonFlags | src/QA_Assistant/Search/DocumentSelection.java:42-46 | an argument is an id exactly when it is not the flag |
| CliDocumentSelection.PrintSegments | src/QA_Assistant/Search/DocumentSelection.java:67-71 | segments are printed one line per id, in order, up to the first id whose lookup throws, which ends the run with that exception |
| CliDocumentSelection.RunCli | src/QA_Assistant/Search/DocumentSelection.java:36-77 | no ids, or more than four in segment mode, exit with status 1 and the message; otherwise the segments or the first id's assembled document are printed |
| Reassembly.FindTerm | src/IR_Ensemble/QA_Assistant/Search/DocumentSelection.java:89-90 | the term query finds the first term with the key, or none exactly when no term has it |
| Reassembly.FetchSegment | src/IR_Ensemble/QA_Assistant/Search/DocumentSelection.java:88-101 | a lookup succeeds exactly when the id's term has a posting, returning the id and the first posting's segment text; otherwise "ID not found" |
| Reassembly.Stem | src/IR_Ensemble/QA_Assistant/Search/DocumentSelection.java:105 | the stem is the id up to and including its first `#`, or the id with `#` appended, and holds exactly one `#`, at its end |
| Reassembly.SeekCeil | src/IR_Ensemble/QA_Assistant/Search/DocumentSelection.java:109-112 | `seekCeil` lands on the first term not below the stem, or reports the end when every term is below it |
| Reassembly.ScanEnd | src/IR_Ensemble/QA_Assistant/Search/DocumentSelection.java:114-123 | the scan stops at the first term that does not start with the stem, or the end |
| Reassembly.PrefixDocsAppend | src/IR_Ensemble/QA_Assistant/Search/DocumentSelection.java:114-123 | the stem's postings over two term runs are those of each run in turn |
| Reassembly.PrefixDocsNone | src/IR_Ensemble/QA_Assistant/Search/DocumentSelection.java:116 | terms without the stem contribute nothing |
| Reassembly.PrefixDocsAll | src/IR_Ensemble/QA_Assistant/Search/DocumentSelection.java:118-122 | terms that all start with the stem contribute all their postings, in order |
| Reassembly.ScanCollectsPrefixTerms | src/IR_Ensemble/QA_Assistant/Search/DocumentSelection.java:109-123 | on a sorted term dictionary, seeking the ceiling and scanning while the prefix holds collects exactly the postings of every term that starts with the stem |
| Reassembly.PrefixDocsSplit | src/IR_Ensemble/QA_Assistant/Search/DocumentSelection.java:109-123 | the dictionary's stem postings split into those before, inside and after the scanned run |
| Reassembly.BeforeCeiling | src/IR_Ensemble/QA_Assistant/Search/DocumentSelection.java:110 | no term below the ceiling starts with the stem |
| Reassembly.AfterScan | src/IR_Ensemble/QA_Assistant/Search/DocumentSelection.java:116 | in a sorted dictionary no term after the scan's stop starts with the stem |
| Reassembly.StartLePreorder | src/IR_Ensemble/QA_Assistant/Search/DocumentSelection.java:125 | comparing by `start_char` (0 when missing) is a total preorder |
| Reassembly.SortedByStart | src/IR_Ensemble/QA_Assistant/Search/DocumentSelection.java:125 | `List.sort` orders the segments by start, keeps the same segments, and keeps segments with equal starts in their original order |
| Reassembly.NoOffsetEmittedTwice | src/IR_Ensemble/QA_Assistant/Search/DocumentSelection.java:127-142 | with consistent offsets, the stitched pieces never cover the same character position twice |
| Reassembly.FrontierNeverDecreases | src/IR_Ensemble/QA_Assistant/Search/DocumentSelection.java:135-141 | the frontier `currentEnd` never moves backwards |
| Reassembly.OverlapExample | src/IR_Ensemble/QA_Assistant/Search/DocumentSelection.java:130-142 | two ten-character segments overlapping by five give the first whole and the second from its sixth character, each followed by a space |
| Reassembly.StitchStep | src/IR_Ensemble/QA_Assistant/Search/DocumentSelection.java:130-142 | each loop turn adds at most the one piece the current segment emits |
| Reassembly.RenderAppend | src/IR_Ensemble/QA_Assistant/Search/DocumentSelection.java:139 | each piece is appended followed by one space |
| Reassembly.StitchOne | src/IR_Ensemble/QA_Assistant/Search/DocumentSelection.java:131-141 | a segment inside the frontier or fully overlapped adds nothing; otherwise its unseen tail and a space are appended and the frontier moves to its end |
| Reassembly.StitchSegments | src/IR_Ensemble/QA_Assistant/Search/DocumentSelection.java:127-142 | the stitching loop renders exactly the pieces `Pieces` emits |
| Reassembly.ScanPrefix | src/IR_Ensemble/QA_Assistant/Search/DocumentSelection.java:114-123 | the do/while loop collects the postings of the scanned terms |
| Reassembly.Assembled | src/IR_Ensemble/QA_Assistant/Search/DocumentSelection.java:104-148 | assembly fails, with "No segments found", exactly when no term is at or above the stem; otherwise it returns the asked id |
| Reassembly.FetchFull | src/IR_Ensemble/QA_Assistant/Search/DocumentSelection.java:104-148 | `fetchFull` computes `Assembled` |
| Reassembly.AssembledFromPrefixTerms | src/IR_Ensemble/QA_Assistant/Search/DocumentSelection.java:104-148 | on a sorted dictionary the full text is the stitched rendering of every stem posting, sorted by start |
| Reassembly.CeilingWithoutPrefix | src/IR_Ensemble/QA_Assistant/Search/DocumentSelection.java:110-116 | a ceiling term without the stem gives an empty document, not an error |
| IrSearcher.Shard | src/InfoRetrieval/Search/Searcher.java:121-145 | one document per hit, in hit order, with the 1-based position as rank and the hit's segment id, full-document id and fields |
| IrSearcher.SearchShard | src/InfoRetrieval/Search/Searcher.java:102-146 | the hit loop computes `Shard` |
| IrSearcher.DocPostings | src/InfoRetrieval/Search/Searcher.java:152-153 | one fusion posting per document of the query |
| IrSearcher.PostingsAppend | src/InfoRetrieval/Search/Searcher.java:151-152 | the postings of one more query follow those of the earlier ones |
| IrSearcher.FuseHit | src/InfoRetrieval/Search/Searcher.java:153-172 | creating the document's result on first sight and adding the query's rank afterwards keeps the map equal to the fusion of the postings seen so far |
| IrSearcher.FuseQuery | src/InfoRetrieval/Search/Searcher.java:152-173 | the inner loop extends the fused map by one query's postings |
| IrSearcher.DocPostingsStep | src/InfoRetrieval/Search/Searcher.java:152 | the inner loop takes the query's documents one at a time, in order |
| IrSearcher.FuseAll | src/InfoRetrieval/Search/Searcher.java:149-174 | the nested loops leave the map holding the fusion, by full-document id, of every query's postings, with fresh result objects |
| IrSearcher.ScoreAll | src/InfoRetrieval/Search/Searcher.java:176 | every result's score becomes the sum of `1/(60 + rank)` over the queries that found it |
| IrSearcher.ScoredTable | src/InfoRetrieval/Search/Searcher.java:176 | the scored objects of the map are exactly the score table of the fused results |
| IrSearcher.SortAndLimit | src/InfoRetrieval/Search/Searcher.java:177-180 | the results are the first 600 of the score table sorted by descending score |
| IrSearcher.ApplyRrfFusion | src/InfoRetrieval/Search/Searcher.java:148-181 | fusion returns at most 600 results: the highest fused RRF scores of the whole score table, in descending order |
| IrSearcher.Shards | src/InfoRetrieval/Search/Searcher.java:88-98 | one query result per query, in query order |
| IrSearcher.ShardRanksPositive | src/InfoRetrieval/Search/Searcher.java:142 | ranks taken as 1-based positions are all positive |
| IrSearcher.SearchAll | src/InfoRetrieval/Search/Searcher.java:85-98 | joining the futures in order fails on the first query whose search throws, and otherwise gives every query's top 1500 hits under ids Q1, Q2, … |
| IrSearcher.Records | src/InfoRetrieval/Search/Searcher.java:194-216 | one record per result |
| IrSearcher.WriteResults | src/InfoRetrieval/Search/Searcher.java:191-218 | the i-th line written is the i-th result's record |
| IrSearcher.SearcherMain | src/InfoRetrieval/Search/Searcher.java:60-79 | a bad argument count exits with 1; a failing query fails the run; otherwise the file at the last argument holds the fused top 600 records |
| LegacySearch.Fallback | src/InfoRetrieval/Search.java:256-259 | a content over 450 characters is cut to its first 450 and "..." added; shorter content is kept; the result is never over 453 characters |
| LegacySearch.HighlightedFragment | src/InfoRetrieval/Search.java:245-269 | the best fragments joined by " ... " when there are some, else the fallback, also when the highlighter throws |
| LegacySearch.Kept | src/InfoRetrieval/Search.java:226-240 | every kept document comes from the hit at its 1-based rank, with its fields and highlighted fragment |
| LegacySearch.KeptGrows | src/InfoRetrieval/Search.java:226-240 | one more hit only appends, and a hit with content is appended with its own position as rank |
| LegacySearch.KeptIncreasing | src/InfoRetrieval/Search.java:226-240 | the kept documents are in hit order: ranks strictly increase |
| LegacySearch.KeptComplete | src/InfoRetrieval/Search.java:233-239 | every hit with content is kept, under its own position, so ranks skip the hits without content |
| LegacySearch.ExecuteSearchWithHighlighting | src/InfoRetrieval/Search.java:203-243 | the hit loop keeps exactly `Kept` |
| LegacySearch.Key | src/InfoRetrieval/Search.java:277-278 | the fusion key is the id when present, else the url; a document with neither has none |
| LegacySearch.SearchResult.constructor | src/InfoRetrieval/Search.java:64-76 | a new result holds its fields and the one query's rank and score, with score 0 |
| LegacySearch.SearchResult.AddQueryResult | src/InfoRetrieval/Search.java:79-82 | the query's rank and score are set, replacing any earlier ones for that query |
| LegacySearch.SearchResult.CalculateRrfScore | src/InfoRetrieval/Search.java:85-89 | the score becomes the sum of `1/(60 + rank)` over the recorded ranks |
| LegacySearch.SearchResult.GetQueryCount | src/InfoRetrieval/Search.java:91-93 | the number of distinct queries that found the document |
| LegacySearch.DocPostingsSingle | src/InfoRetrieval/Search.java:277-290 | a document gives one posting when it has a key and none otherwise |
| LegacySearch.ScoredTable | src/InfoRetrieval/Search.java:295-297 | the scored objects of the map are exactly the score table of the fused results |
| LegacySearch.FuseHit | src/InfoRetrieval/Search.java:277-290 | a keyed document is created or updated, an unkeyed one skipped, keeping the map equal to the fusion so far |
| LegacySearch.DocPostingsAppend | src/InfoRetrieval/Search.java:276 | the postings of a list of documents are those of each in turn |
| LegacySearch.DocPostingsStep | src/InfoRetrieval/Search.java:276 | the inner loop takes the documents one at a time, in order |
| LegacySearch.FuseQuery | src/InfoRetrieval/Search.java:276-291 | the inner loop extends the fused map by one query's keyed postings |
| LegacySearch.FuseAll | src/InfoRetrieval/Search.java:272-292 | the loops leave the map holding the fusion, by id or url, of every query's postings |
| LegacySearch.ScoreAll | src/InfoRetrieval/Search.java:295-297 | every result's score becomes its RRF sum |
| LegacySearch.SortAndLimit | src/InfoRetrieval/Search.java:300-303 | the results are the first 150 of the score table sorted by descending score |
| LegacySearch.ApplyRrfFusion | src/InfoRetrieval/Search.java:271-304 | fusion returns at most 150 results: the highest RRF scores of the whole table, in descending order |
| LegacySearch.ExecuteSearches | src/InfoRetrieval/Search.java:167-195 | one result per query in query order, a query whose search throws giving an empty result under its own id |
| LegacySearch.KeptRanksPositive | src/InfoRetrieval/Search.java:238 | ranks taken as 1-based positions are all positive |
| LegacySearch.DocPostingsPositive | src/InfoRetrieval/Search.java:238 | a query's postings carry positive ranks |
| LegacySearch.Records | src/InfoRetrieval/Search.java:331-351 | one record per result |
| LegacySearch.WriteResults | src/InfoRetrieval/Search.java:327-353 | the i-th line written is the i-th result's record |
| LegacySearch.SearchMain | src/InfoRetrieval/Search.java:126-165 | a bad argument count exits with 1; otherwise the file at the last argument holds the fused top 150 records of every query, failed ones counting as empty |
| LegacySearch.FailedQueryChangesNothing | src/InfoRetrieval/Search.java:178-186 | a query whose search throws leaves the fused results exactly as the other queries make them |
| SearchResults.SearchResult.constructor | src/InfoRetrieval/Search/SearchResult.java:17-28 | a new result holds the fields of the creating hit and exactly one entry, for its query id, in both the rank and the score map; the RRF score starts at 0 |
| SearchResults.SearchResult.AddQueryResult | src/InfoRetrieval/Search/SearchResult.java:30-33 | sets or overwrites the rank and score of one query id and changes nothing else; the two maps stay keyed by the same query ids |
| SearchResults.SearchResult.CalculateRrfScore | src/InfoRetrieval/Search/SearchResult.java:35-38 | the stored score becomes the sum of 1/(k + r) over all stored ranks, whatever order the map yields them in; the maps are unchanged |
| SearchResults.SearchResult.GetQueryCount | src/InfoRetrieval/Search/SearchResult.java:40 | the number of distinct query ids that have a rank for this result |
| RankedDocuments.ExtractFullDocId | src/InfoRetrieval/Search/RankedDocument.java:34-37 | the result is the longest prefix of the segment id free of '#': the whole id when it has no '#', otherwise the part before its first '#' |
| RankedDocuments.NewRankedDocument | src/InfoRetrieval/Search/RankedDocument.java:15-32 | every field is its argument and the full document id is a '#'-free prefix of the segment id |
| RankedDocuments.FullDocIdAgainstRootId | src/IR_Ensemble/QA_Assistant/Search/Searcher.java:152-156 | the newer searcher's root id, when it keeps a segment, equals the older full document id; a segment id starting with '#' or lacking '#' is skipped there but keyed here (by "" and by itself) |
| Ranking.RankLePreorder | src/InfoRetrieval/Search/Searcher.java:177-178 | ordering by score descending (ties by key) is a total preorder, so sorting by it is well defined |
| Ranking.ListEntries | src/InfoRetrieval/Search/Searcher.java:177 | listing a map's values yields every entry exactly once, each under its own key |
| Ranking.ListsPermutation | src/InfoRetrieval/Search/Searcher.java:177 | any two listings of the same map are permutations of each other |
| Ranking.RankingUnique | src/InfoRetrieval/Search/Searcher.java:177-178 | the ranked list does not depend on the order the map yields its values in |
| Ranking.RankingOrdered | src/InfoRetrieval/Search/Searcher.java:177-180 | the ranking is a permutation of its input in non-increasing score order, and the first n entries score at least as high as every entry left out |
| Rrf.Reciprocal | src/InfoRetrieval/Search/SearchResult.java:37 | a rank's contribution 1/(k + r) is positive whenever k + r is |
| Rrf.ReciprocalDecreasing | src/IR_Ensemble/QA_Assistant/Search/Searcher.java:159 | a worse (larger) rank never contributes more than a better one |
| Rrf.ReciprocalStrictlyDecreasing | src/IR_Ensemble/QA_Assistant/Search/Searcher.java:159-169 | a strictly worse rank contributes strictly less, so the best segment of a document is the one with the smallest rank |
| Rrf.RankSumRemove | src/InfoRetrieval/Search/SearchResult.java:35-38 | the sum over a rank map splits into any one query's term plus the sum over the others, so it is independent of iteration order |
| Rrf.RankSumUpdate | src/InfoRetrieval/Search/SearchResult.java:30-38 | after setting one query's rank the sum is the sum without that query plus the new term |
| FusionSpec.QueryIdInjective | src/InfoRetrieval/Search/Searcher.java:90 | distinct query positions get distinct query ids "Q1", "Q2", ..., so no query overwrites another's entry |
| FusionSpec.Fuse | src/InfoRetrieval/Search/Searcher.java:148-174 | every fused result has the same query ids in its rank and score maps, and all its ranks are positive when all hits' ranks are |
| FusionSpec.FirstHit | src/InfoRetrieval/Search/Searcher.java:155-169 | the index of the first hit with a given key, or none when no hit has it |
| FusionSpec.LastHit | src/InfoRetrieval/Search/Searcher.java:170-172 | the index of the last hit of a key for a query id, or none when there is no such hit |
| FusionSpec.FuseAt | src/InfoRetrieval/Search/Searcher.java:148-174 | a key is fused iff some hit carries it; its fields come from its first hit, and each query id's rank and score come from that query's last hit of the key |
| FusionSpec.QueryCount | src/InfoRetrieval/Search/SearchResult.java:40 | a fused result's query count is the number of distinct queries that hit its key |
| FusionSpec.LaterHitOverwrites | src/InfoRetrieval/Search/Searcher.java:170-172 | a hit on an existing key changes only that key's entry for its own query and leaves every other key untouched |
| FusionSpec.OverwriteLowersScore | src/InfoRetrieval/Search/SearchResult.java:30-38 | overwriting a query's rank with a worse one strictly lowers the fused RRF score |
| FusionSpec.PositiveFits | src/InfoRetrieval/Search/SearchResult.java:37 | with k = 60 every positive rank has a defined reciprocal term |
| FusionSpec.AllPositiveFit | src/InfoRetrieval/Search/Searcher.java:176 | every fused result with positive ranks can have its RRF score computed with k = 60 |
| FusionSpec.ScoreTable | src/InfoRetrieval/Search/Searcher.java:176 | scoring keeps exactly the fused keys, each entry carrying its fused result under its own key |
| Sorting.SortByPermutes | src/IR_Ensemble/QA_Assistant/Search/Searcher.java:122-123 | sorting returns a permutation of its input |
| Sorting.SortBySorted | src/IR_Ensemble/QA_Assistant/Search/Searcher.java:122-123 | under a total preorder the sorted list is in order |
| Sorting.SortByStable | src/IR_Ensemble/QA_Assistant/Search/Searcher.java:122-123 | the sort is stable, as List.sort promises: equivalent elements keep their input order |
| Sorting.SortedUnique | src/InfoRetrieval/Search/Searcher.java:177-178 | two sorted arrangements of the same elements coincide when no two distinct elements are equivalent, so the ranking is determined by its input set |
| Folds.SumOfPermutation | src/IR_Ensemble/QA_Assistant/Search/Searcher.java:163-171 | summing per-query contributions gives the same total in any query order |
| Folds.MaxOfPermutation | src/IR_Ensemble/QA_Assistant/Search/Searcher.java:163-171 | the largest per-query contribution is the same in any query order |
| RootFusion.RootId | src/IR_Ensemble/QA_Assistant/Search/Searcher.java:152-156 | a segment is kept iff it has a '#' that is not its first character |
| RootFusion.RootIdShape | src/IR_Ensemble/QA_Assistant/Search/Searcher.java:152-156 | a kept segment's root id is the non-empty '#'-free part before its first '#' |
| RootFusion.Boost | src/IR_Ensemble/QA_Assistant/Search/Searcher.java:159 | every hit contributes a positive boost |
| RootFusion.BoostOrder | src/IR_Ensemble/QA_Assistant/Search/Searcher.java:159 | the hit at 0-based position r contributes 1/(60 + r + 1), and a later position strictly less |
| RootFusion.FirstRank | src/IR_Ensemble/QA_Assistant/Search/Searcher.java:147-157 | the position of the first hit of a root among the first n hits, or none when none of them belongs to it |
| RootFusion.FoldPrefixAt | src/IR_Ensemble/QA_Assistant/Search/Searcher.java:147-172 | after the rank loop over n hits a root is present iff it was before or one of the hits belongs to it, and `compute` was applied exactly once, with the boost and payload of its first hit |
| RootFusion.FoldPrefixKeys | src/IR_Ensemble/QA_Assistant/Search/Searcher.java:147-172 | the roots present after n hits are the earlier ones plus those hit |
| RootFusion.FoldPrefixValue | src/IR_Ensemble/QA_Assistant/Search/Searcher.java:147-172 | a root not hit keeps its aggregate; a hit root's aggregate is `compute` applied once to its first hit |
| RootFusion.FoldQueryAt | src/IR_Ensemble/QA_Assistant/Search/Searcher.java:138-172 | one query adds to a root exactly the boost of that root's best-ranked segment, with that segment's payload, and leaves other roots alone |
| RootFusion.IgnoredHit | src/IR_Ensemble/QA_Assistant/Search/Searcher.java:154-157 | a hit without a usable root id, or of a root already seen in this query, changes nothing |
| RootFusion.PrefixAgrees | src/IR_Ensemble/QA_Assistant/Search/Searcher.java:149-172 | the loop's state after n hits depends only on those n hits |
| RootFusion.ScoreNeverDecreases | src/IR_Ensemble/QA_Assistant/Search/Searcher.java:165 | folding a query in never lowers a root's score |
| RootFusion.FoldAllAt | src/IR_Ensemble/QA_Assistant/Search/Searcher.java:111-119 | after all queries a root is present iff some query hit it; its score is the sum and its best boost the maximum of the queries' contributions |
| RootFusion.BestRawOfFirstBestQuery | src/IR_Ensemble/QA_Assistant/Search/Searcher.java:166-169 | the payload kept for a root comes from the first query in fold order whose boost for it is the largest |
| RootFusion.BestInLastQuery | src/IR_Ensemble/QA_Assistant/Search/Searcher.java:166-169 | a last query that strictly beats all earlier boosts supplies the kept payload |
| RootFusion.BestInEarlierQuery | src/IR_Ensemble/QA_Assistant/Search/Searcher.java:166-169 | a last query that does not strictly beat the best earlier boost leaves the earlier payload in place |
| RootFusion.FoldOrderIndependent | src/IR_Ensemble/QA_Assistant/Search/Searcher.java:111-119 | whatever order the concurrent queries complete in, the set of roots and each root's score and best boost are the same |
| RootFusion.AggMap.constructor | src/IR_Ensemble/QA_Assistant/Search/Searcher.java:106 | the aggregate map starts empty |
| RootFusion.RunSingleQuery | src/IR_Ensemble/QA_Assistant/Search/Searcher.java:138-176 | the rank loop leaves the shared map equal to the specification fold of that query's hits over its old contents |
| RootFusion.SkipStep | src/IR_Ensemble/QA_Assistant/Search/Searcher.java:153-154 | skipping a segment without a usable '#' keeps the fold and the seen set in step |
| RootFusion.SeenStep | src/IR_Ensemble/QA_Assistant/Search/Searcher.java:156-157 | skipping a root already in the seen set keeps the fold and the seen set in step |
| RootFusion.NewRootStep | src/IR_Ensemble/QA_Assistant/Search/Searcher.java:156-171 | the first hit of a root applies `compute` with its boost and payload, and the root joins the seen set |
| RootFusion.HitLists | src/IR_Ensemble/QA_Assistant/Search/Searcher.java:142-143 | one hit list, of the top hits, per query searched |
| RootFusion.Table | src/IR_Ensemble/QA_Assistant/Search/Searcher.java:122 | the aggregates keyed by root id, each entry under its own key |
| RootFusion.BestRaws | src/IR_Ensemble/QA_Assistant/Search/Searcher.java:126-129 | one best payload per ranked aggregate, in ranking order, to be re-serialised |
| RootFusion.WriteTop | src/IR_Ensemble/QA_Assistant/Search/Searcher.java:125-134 | writes, in ranking order, the compact re-serialisation of each of the first FINAL_N = 200 aggregates' best payloads, stopping at the first payload Jackson cannot re-serialise, whose exception ends the write |
| RootFusion.CompactAll | src/IR_Ensemble/QA_Assistant/Search/Searcher.java:127-131 | every written line is the compact form of the payload at its position; with no failure every payload is written, otherwise the lines stop just before the first payload that fails, with its exception |
| RootFusion.CompactPrefix | src/IR_Ensemble/QA_Assistant/Search/Searcher.java:127-131 | once a prefix of the payloads hits a failure, the rest of the payloads change nothing |
| RootFusion.WriteStops | src/IR_Ensemble/QA_Assistant/Search/Searcher.java:127-132 | a failure within the first 200 payloads is the outcome of the whole write |
| RootFusion.SearcherMain | src/IR_Ensemble/QA_Assistant/Search/Searcher.java:89-135 | fewer than two arguments or more than eight queries exit with status 1; a failing query surfaces as a failure; otherwise the output path gets the compact forms of the top 200 best payloads of the ranked fold of all queries, or the lines written before the first payload that fails to re-serialise together with its exception |
| RootFusion.TopOutputOf | src/IR_Ensemble/QA_Assistant/Search/Searcher.java:122-134 | the write's outcome is the same for every listing of the aggregate map, so it depends only on the map |
| RootFusion.FoldOneMore | src/IR_Ensemble/QA_Assistant/Search/Searcher.java:111-119 | folding one more query extends the fold of the earlier ones |
| RootFusion.FoldQueries | src/IR_Ensemble/QA_Assistant/Search/Searcher.java:111-119 | reports the first query whose search fails, and otherwise yields the fold of all queries' top hits |
| RootFusion.RankedLines | src/IR_Ensemble/QA_Assistant/Search/Searcher.java:122-134 | the write's lines and failure are those of compacting the best payloads of the first 200 entries of the score ranking of some listing of the aggregates |
| Synonyms.JavaTrim | src/InfoRetrieval/Search/SynonymExpander.java:25 | the trimmed string neither starts nor ends with a character of code point U+0020 or below |
| Synonyms.TrimmedTerm | src/InfoRetrieval/Search/SynonymExpander.java:30-31 | a comma-free token trims to nothing or to a term the file can hold |
| Synonyms.TrimIdempotent | src/InfoRetrieval/Search/SynonymExpander.java:25-30 | trimming a trimmed line or token changes nothing |
| Synonyms.SplitOn | src/InfoRetrieval/Search/SynonymExpander.java:27 | splitting on a character yields at least one piece and no piece holds the separator |
| Synonyms.SplitOnJoin | src/InfoRetrieval/Search/SynonymExpander.java:27 | joining the pieces with the separator gives the line back, so no character is lost |
| Synonyms.SplitTerms | src/InfoRetrieval/Search/SynonymExpander.java:45 | every term of the whitespace split is non-empty except the first, which is empty only when the query starts with whitespace |
| Synonyms.SplitNoSpace | src/InfoRetrieval/Search/SynonymExpander.java:45 | no term of the whitespace split holds whitespace |
| Synonyms.SplitSpacesJoin | src/InfoRetrieval/Search/SynonymExpander.java:45-53 | splitting a single-spaced query without outer whitespace and joining with single spaces gives it back |
| Synonyms.EntriesWellFormed | src/InfoRetrieval/Search/SynonymExpander.java:28-32 | every collected entry is non-empty, trimmed and comma-free |
| Synonyms.RemoveFirst | src/InfoRetrieval/Search/SynonymExpander.java:34-35 | removing a present element shortens the list by one and adds nothing; removing an absent one changes nothing |
| Synonyms.RemoveFirstCounts | src/InfoRetrieval/Search/SynonymExpander.java:34-35 | removing a present element takes out exactly one copy of it |
| Synonyms.LoadWellFormed | src/InfoRetrieval/Search/SynonymExpander.java:21-40 | every key of the loaded map is a non-empty lower-cased term, and every synonym a term the file can hold |
| Synonyms.PutTermsLast | src/InfoRetrieval/Search/SynonymExpander.java:33-37 | the last term of a line with a given lower-cased form decides that key: its synonyms are the line's terms less one copy of that term |
| Synonyms.PutTermsOther | src/InfoRetrieval/Search/SynonymExpander.java:33-37 | a key none of the line's terms lower-cases to keeps its entry or its absence |
| Synonyms.LoadLineOverrides | src/InfoRetrieval/Search/SynonymExpander.java:24-38 | a later line overrides an earlier one for each key it defines |
| Synonyms.LoadLineKeeps | src/InfoRetrieval/Search/SynonymExpander.java:24-38 | a skipped line, or a key a line does not define, leaves the map's entry unchanged |
| Synonyms.LoadSynonyms | src/InfoRetrieval/Search/SynonymExpander.java:21-40 | the loop over the file's lines builds exactly the map the line-by-line specification gives |
| Synonyms.PutLine | src/InfoRetrieval/Search/SynonymExpander.java:33-37 | the loop over a line's terms leaves the map equal to its specification |
| Synonyms.CollectEntries | src/InfoRetrieval/Search/SynonymExpander.java:28-32 | the loop over a line's tokens collects exactly its trimmed non-empty tokens, in order |
| Synonyms.VariantsOf | src/InfoRetrieval/Search/SynonymExpander.java:50-54 | one variant per synonym of the term |
| Synonyms.CandidatesLength | src/InfoRetrieval/Search/SynonymExpander.java:46-56 | the loops produce one candidate per synonym of each term, duplicates included |
| Synonyms.VariantSource | src/InfoRetrieval/Search/SynonymExpander.java:50-53 | every variant is the query with that term replaced by one of its synonyms |
| Synonyms.VariantOf | src/InfoRetrieval/Search/SynonymExpander.java:50-53 | every synonym of the term yields its variant |
| Synonyms.CandidateSource | src/InfoRetrieval/Search/SynonymExpander.java:46-56 | every candidate replaces some term by one of its synonyms |
| Synonyms.CandidateOf | src/InfoRetrieval/Search/SynonymExpander.java:46-56 | every replacement of a term by one of its synonyms is a candidate |
| Synonyms.CandidatesMembers | src/InfoRetrieval/Search/SynonymExpander.java:46-56 | a string is a candidate iff it is the query's terms with some term replaced by one of its synonyms |
| Synonyms.NoCandidates | src/InfoRetrieval/Search/SynonymExpander.java:48-49 | terms without synonyms produce no candidates |
| Synonyms.ExpansionWithoutSynonyms | src/InfoRetrieval/Search/SynonymExpander.java:42-58 | a query none of whose terms has synonyms expands to itself alone |
| Synonyms.ExpansionMembers | src/InfoRetrieval/Search/SynonymExpander.java:42-58 | the expansion starts with the query, repeats nothing, has at most one entry per synonym beyond it, and holds exactly the query and its candidates |
| Synonyms.CandidatesStep | src/InfoRetrieval/Search/SynonymExpander.java:46-56 | the candidates of one more term are the earlier ones followed by that term's variants |
| Synonyms.VariantsStep | src/InfoRetrieval/Search/SynonymExpander.java:50-53 | adding one variant to the insertion-ordered set appends it only when new |
| Synonyms.SynonymExpander.constructor | src/InfoRetrieval/Search/SynonymExpander.java:17-19 | the expander's map is the one loaded from the file's lines |
| Synonyms.SynonymExpander.ExpandQuery | src/InfoRetrieval/Search/SynonymExpander.java:42-58 | returns exactly the specified expansion: the query, then each new variant in loop order, without repeats |
| Synonyms.AddVariants | src/InfoRetrieval/Search/SynonymExpander.java:50-54 | the inner loop adds the term's variants to the insertion-ordered set |
| InfoUtils.FirstTruthy | src/InfoRetrieval/Utils.py:18-21 | the value of the first listed key holding a truthy value; the empty string when none does |
| InfoUtils.Contributions | src/InfoRetrieval/Utils.py:43-47 | one contribution per corpus line, in file order |
| InfoUtils.GetDocumentText | src/InfoRetrieval/Utils.py:23-49 | the corpus loop returns exactly the specified document text: a missing file, an undecodable line or a missing key fails, otherwise the matching segments concatenated in file order |
| InfoUtils.ContributionsConcat | src/InfoRetrieval/Utils.py:43-47 | the contributions of two runs of lines are those of each run, concatenated |
| InfoUtils.AppendedOne | src/InfoRetrieval/Utils.py:47 | a single contribution is the whole output |
| InfoUtils.AppendedConcat | src/InfoRetrieval/Utils.py:40-49 | the first failure stops the accumulation; without failures the output of two runs is the two outputs concatenated |
| InfoUtils.GatheredOne | src/InfoRetrieval/Utils.py:43-47 | a single line contributes exactly its own segment, or its failure |
| InfoUtils.GatheredAppend | src/InfoRetrieval/Utils.py:40-49 | the text of two runs of lines is the two texts concatenated, and the earlier run's failure wins |
| InfoUtils.NonMatchingAddsNothing | src/InfoRetrieval/Utils.py:46-47 | a line whose segment id does not start with the requested id adds nothing, wherever it stands |
| InfoUtils.PrefixCollision | src/InfoRetrieval/Utils.py:46 | the match is a plain prefix test: asking for doc_1 also collects the segments of doc_10 |
| InfoUtils.DocIds | src/InfoRetrieval/Utils.py:79 | each id is cut before its first '#' |
| InfoUtils.DedupPrefix | src/InfoRetrieval/Utils.py:77-84 | the queue built from a prefix of the ids is a prefix of the queue built from all of them |
| InfoUtils.QueueMembers | src/InfoRetrieval/Utils.py:76-84 | the queue holds at most three distinct document ids, each from the input, in first-occurrence order; with fewer than three every id's document is queued; a non-empty input queues at least its first document |
| InfoUtils.QueueFull | src/InfoRetrieval/Utils.py:83-84 | once three documents are queued the remaining ids cannot change the queue |
| InfoUtils.QueueStep | src/InfoRetrieval/Utils.py:79-82 | one id through the loop queues its document unless already seen |
| InfoUtils.CollapseIds | src/InfoRetrieval/Utils.py:76-84 | the loop with its seen set and its break yields exactly the specified queue |
| InfoUtils.NonBlankStripped | src/InfoRetrieval/Utils.py:88 | every paragraph kept is non-empty and already stripped |
| InfoUtils.Longest | src/InfoRetrieval/Utils.py:92 | the chosen paragraph is one of them and at least as long as every other |
| InfoUtils.LongestIsFirst | src/InfoRetrieval/Utils.py:92 | max keeps the first of the longest paragraphs: no earlier one is as long |
| InfoUtils.LastSpace | src/InfoRetrieval/Utils.py:96 | the position of the last space before the cap, or none when there is no space there |
| InfoUtils.BestFragmentChoice | src/InfoRetrieval/Utils.py:86-97 | no paragraph gives the text's prefix up to the cap; a longest paragraph within the cap is returned whole; a longer one is cut at its last space before the cap, or at the cap, and gets an ellipsis |
| InfoUtils.FragmentFits | src/InfoRetrieval/Utils.py:86-97 | with a non-negative cap a fragment has at most the cap's characters plus the ellipsis |
| InfoUtils.Blocks | src/InfoRetrieval/Utils.py:113-116 | one "### id" block per queued document, paired in order |
| InfoUtils.FetchAll | src/InfoRetrieval/Utils.py:101-105 | when every fetch succeeds there is one text per queued document |
| InfoUtils.FetchStep | src/InfoRetrieval/Utils.py:101-105 | one more queued document adds its text, or its failure ends the fetch |
| InfoUtils.FetchAllPrefixFailure | src/InfoRetrieval/Utils.py:101-105 | once a document fails, later documents do not change the outcome |
| InfoUtils.Finals | src/InfoRetrieval/Utils.py:107-110 | each text is kept whole or replaced by its best fragment, as the caller asked |
| InfoUtils.DocumentSelection | src/InfoRetrieval/Utils.py:53-117 | the selection returns exactly the specified result: ValueError for no ids, a fetch failure, or the blocks of the queued documents joined by blank lines |
| InfoUtils.SelectionRejectsEmpty | src/InfoRetrieval/Utils.py:73-74 | ValueError is raised iff the id list is empty |
| InfoUtils.NoValueError | src/InfoRetrieval/Utils.py:36-49 | fetching documents never fails with ValueError |
| InfoUtils.GatheredNoValueError | src/InfoRetrieval/Utils.py:43-47 | assembling a document never fails with ValueError |
| InfoUtils.AppendedNoValueError | src/InfoRetrieval/Utils.py:40-49 | accumulating contributions that are not ValueError never yields ValueError |
| InfoUtils.SelectionHeaders | src/InfoRetrieval/Utils.py:113-117 | a successful selection holds a "### id" header for every queued document |
| QaAgent.SerialisedAppend | src/IR_Ensemble/QA_Assistant/base.py:105-117 | recording a message extends the serialised history by exactly that message's piece |
| QaAgent.SerialisedLength | src/IR_Ensemble/QA_Assistant/base.py:109-117 | each message costs its role, its content and six characters of markup; the serialised history is empty iff the history is |
| QaAgent.Head | src/IR_Ensemble/QA_Assistant/base.py:168 | slicing succeeds exactly on lists and strings, keeping their first n items or characters; anything else raises |
| QaAgent.SearchCallsCapped | src/IR_Ensemble/QA_Assistant/base.py:166-175 | at most two searches are dispatched, each with the queries and master query of the listed call at the same position |
| QaAgent.SelectionsCapped | src/IR_Ensemble/QA_Assistant/base.py:206-213 | the selection sent is never empty: at most six listed ids, or the single placeholder "dummy_id" when none is listed |
| QaAgent.SplitSound | src/IR_Ensemble/QA_Assistant/base.py:319-320 | the split fails exactly when some question item is not a dict; otherwise finished items are those with finished True and remaining ones the others |
| QaAgent.SplitPermutes | src/IR_Ensemble/QA_Assistant/base.py:319-320 | every question item lands in exactly one of the two lists |
| QaAgent.SetKey | src/IR_Ensemble/QA_Assistant/base.py:330 | assigning a key binds it to the new value, keeps every other binding and keeps the key order, appending a new key at the end |
| QaAgent.Replace | src/IR_Ensemble/QA_Assistant/base.py:330 | rebinding a present key leaves every other binding and the key order unchanged |
| QaAgent.Questions | src/IR_Ensemble/QA_Assistant/base.py:316-317 | the question items are read only from an answer that decodes to a JSON object |
| QaAgent.StatusRules | src/IR_Ensemble/QA_Assistant/base.py:304-348 | NO_ANSWER only for an empty answer or a pass finishing nothing after NO_ANSWER; FINISHED iff the answer was read and no question remains; PARTIAL otherwise |
| QaAgent.PersistedFinished | src/IR_Ensemble/QA_Assistant/base.py:322-327 | only finished question items are appended to the context file |
| QaAgent.RewrittenAnswer | src/IR_Ensemble/QA_Assistant/base.py:329-331 | the rewritten answer binds "questions" to the unfinished items and keeps every other binding of the payload |
| QaAgent.SecondPassPersistsNothing | src/IR_Ensemble/QA_Assistant/base.py:315-331 | read back, a rewritten answer has no finished question left, so a second pass appends nothing |
| QaAgent.UnfinishedPass | src/IR_Ensemble/QA_Assistant/base.py:334-344 | a payload whose items are all unfinished dicts finishes nothing and keeps all of them |
| QaAgent.PassOfReadable | src/IR_Ensemble/QA_Assistant/base.py:315-344 | a readable answer is split, the finished items persisted, the payload rewritten and the status set by the rules |
| QaAgent.PassOfUnreadable | src/IR_Ensemble/QA_Assistant/base.py:346-347 | an answer that cannot be read or split leaves PARTIAL, the answer unchanged and nothing persisted |
| QaAgent.ReadBack | src/IR_Ensemble/QA_Assistant/base.py:316-317 | a payload binding "questions" to a list yields that list's items |
| QaAgent.NothingFinished | src/IR_Ensemble/QA_Assistant/base.py:319-320 | items that are all unfinished dicts split into no finished items and themselves |
| QaAgent.BaseAgent.constructor | src/IR_Ensemble/QA_Assistant/base.py:77-88 | a new agent has an empty history, status NO_ANSWER, no answer, summary or previous response id, and an empty context file |
| QaAgent.BaseAgent.Record | src/IR_Ensemble/QA_Assistant/base.py:105-107 | the message is appended to the history and its piece to the serialised form; nothing else changes |
| QaAgent.BaseAgent.ResetLogicalThread | src/IR_Ensemble/QA_Assistant/base.py:265-269 | the history is cleared and the response chain cut; status, answer and summary are kept |
| QaAgent.BaseAgent.UpdateStatus | src/IR_Ensemble/QA_Assistant/base.py:290-348 | the summary branch sets only the summary; otherwise status, answer and context file become those of the specified pass over the old status and answer |
| QaAgent.Persist | src/IR_Ensemble/QA_Assistant/base.py:323-327 | each finished item is appended, in order, to the context file |
| QaAgent.Pass | src/IR_Ensemble/QA_Assistant/base.py:313-348 | the steps of one pass, each exception ending it with PARTIAL, give exactly the specified outcome |
| ReportEvaluator.TermValue | src/ReportEvaluator/report_evaluator.py:126-153 | an item that can be added adds its rubric factor times its value; other keys add nothing |
| ReportEvaluator.Tally | src/ReportEvaluator/report_evaluator.py:123-153 | the loop over the items returns exactly the specified total, or the exception of the first item that cannot be added |
| ReportEvaluator.RubricOverShift | src/ReportEvaluator/report_evaluator.py:124-153 | raising one field's value by x raises the weighted sum by that field's factor times x |
| ReportEvaluator.FieldSnoc | src/ReportEvaluator/report_evaluator.py:126 | binding a fresh key sets that field and leaves the others alone |
| ReportEvaluator.RubricOverSnoc | src/ReportEvaluator/report_evaluator.py:126-153 | binding a fresh key adds its weighted value to the weighted sum |
| ReportEvaluator.SumIsRubric | src/ReportEvaluator/report_evaluator.py:124-153 | summing the terms of distinct bindings gives 3·coverage + 2·accuracy + 2·citation_quality + style + prioritization + completeness |
| ReportEvaluator.LastTerm | src/ReportEvaluator/report_evaluator.py:126-153 | the last binding's term is exactly what it adds to the rubric |
| ReportEvaluator.WeightInKey | src/ReportEvaluator/report_evaluator.py:127-153 | only a rubric field has a positive factor |
| ReportEvaluator.KeyWeight | src/ReportEvaluator/report_evaluator.py:127-153 | each rubric field's key gets at least that field's factor |
| ReportEvaluator.RubricOverSame | src/ReportEvaluator/report_evaluator.py:124-153 | dicts whose rubric fields agree have the same weighted sum |
| ReportEvaluator.FieldOkOfItems | src/ReportEvaluator/report_evaluator.py:126-153 | where every item can be added, each present rubric field holds an int or a bool |
| ReportEvaluator.ItemsOfNumeric | src/ReportEvaluator/report_evaluator.py:126-153 | with every present rubric field an int or a bool, every item can be added |
| ReportEvaluator.ItemsRubric | src/ReportEvaluator/report_evaluator.py:126 | a dict's items carry the dict's rubric |
| ReportEvaluator.ScoreIsRubric | src/ReportEvaluator/report_evaluator.py:123-153 | the total exists iff the value is a dict whose rubric fields are numeric, and is then the weighted rubric; a non-dict raises AttributeError, a non-numeric field TypeError |
| ReportEvaluator.TotalOfItems | src/ReportEvaluator/report_evaluator.py:124-153 | items that can all be added sum to the rubric and every rubric field is numeric |
| ReportEvaluator.NumericOfItems | src/ReportEvaluator/report_evaluator.py:126-153 | where every item can be added every rubric field is numeric |
| ReportEvaluator.Scaled | src/ReportEvaluator/report_evaluator.py:128-150 | a positive factor times a score of 0 to 5 reaches five times the factor only at 5 |
| ReportEvaluator.BoundedRubric | src/ReportEvaluator/report_evaluator.py:124-153 | with positive factors and fields scored 1 to 5 or absent, the sum is at most five times the factors, and reaches it only when every field scores 5 |
| ReportEvaluator.PassNeedsAllFives | src/ReportEvaluator/report_evaluator.py:123-154 | with fields scored 1 to 5 the total is at most 50, and total/55 > 0.9 holds only when all six fields score 5 |
| ReportEvaluator.RubricWeight | src/ReportEvaluator/report_evaluator.py:125-150 | the factors are positive and sum to 10, not the 11 the divisor of 55 assumes |
| ReportEvaluator.IrQuestions | src/ReportEvaluator/report_evaluator.py:113 | the questions of the ir block, or the exception reading them raises |
| ReportEvaluator.EvalScore | src/ReportEvaluator/report_evaluator.py:115-116 | the total of the eval block, or the exception reading or tallying it raises |
| ReportEvaluator.NoteBookkeeping | src/ReportEvaluator/report_evaluator.py:112-121 | every call appends one or two notes, two exactly when the ir block is read and the eval block fails; the last note is the reply's note or the parse-error note |
| ReportEvaluator.StatusRule | src/ReportEvaluator/report_evaluator.py:112-154 | PASS exactly when the reply was read through and its total is at least 50; an unreadable reply gives FAIL and no questions |
| ReportEvaluator.PromptShowsComment | src/ReportEvaluator/report_evaluator.py:44-46 | the generator's latest comment appears in the prompt, numbered after the earlier ones |
| ReportEvaluator.Evaluator.constructor | src/ReportEvaluator/report_evaluator.py:24-33 | a new evaluator has its topic, no notes, status INCOMPLETE and no questions yet |
| ReportEvaluator.Evaluator.SerializeNotes | src/ReportEvaluator/report_evaluator.py:59-64 | one numbered line per note of the chosen side, with the placeholder for an empty note |
| ReportEvaluator.Evaluator.UpdateEval | src/ReportEvaluator/report_evaluator.py:123-154 | raises iff the total cannot be computed; otherwise the status is PASS or FAIL by the verdict, and nothing else changes |
| ReportEvaluator.Evaluator.Recover | src/ReportEvaluator/report_evaluator.py:117-121 | the except branch: no questions, FAIL, and the parse-error note appended |
| ReportEvaluator.Evaluator.UpdateStatus | src/ReportEvaluator/report_evaluator.py:81-121 | questions, notes and status become those of the specified update of the reply |
| ReportEvaluator.Evaluator.Evaluate | src/ReportEvaluator/report_evaluator.py:35-57 | the comment is recorded, the model is asked the specified prompt, and the reply's update is applied and returned |
| ReportGenerator.OrElse | src/ReportGenerator/report_generator.py:65 | a falsy optional text shows the placeholder, any other its own value |
| ReportGenerator.PromptShowsEvalNote | src/ReportGenerator/report_generator.py:64-65 | the evaluator's latest note appears in the prompt, numbered after the earlier ones, because it is recorded before the prompt is built |
| ReportGenerator.PromptShowsOwnNote | src/ReportGenerator/report_generator.py:65 | each of the generator's own notes appears in the prompt, numbered from 0 |
| ReportGenerator.PromptShowsReport | src/ReportGenerator/report_generator.py:65 | the prompt shows the previous report, or the first-round placeholder when it is falsy |
| ReportGenerator.ReplyRead | src/ReportGenerator/report_generator.py:54-58 | a reply with a report block followed by a note block yields both bodies, stripped |
| ReportGenerator.HeadOpensReport | src/ReportGenerator/report_generator.py:54-58 | the text before the note block opens only the report's tags, so the note is found after the report |
| ReportGenerator.Generator.constructor | src/ReportGenerator/report_generator.py:29-47 | a new generator has its topic, no report and no notes |
| ReportGenerator.Generator.SerializeNotes | src/ReportGenerator/report_generator.py:79-84 | one numbered line per note of the chosen side, with the placeholder for an empty note |
| ReportGenerator.Generator.UpdateStatus | src/ReportGenerator/report_generator.py:86-99 | the report becomes the report block's body and the note block's body is recorded, each None when missing; a reply that is not a string becomes the report and records no note |
| ReportGenerator.Generator.GenerateReport | src/ReportGenerator/report_generator.py:60-76 | the evaluator's note is recorded first; the reply to the specified prompt sets the report and adds one note, and both are returned |
| ReportNotes.Lines | src/ReportEvaluator/report_evaluator.py:61-64 | one line per note, numbered from 0 in note order |
| ReportNotes.Serialized | src/ReportEvaluator/report_evaluator.py:59-64 | the listing always ends with a newline, even with no notes |
| ReportNotes.SerializedEmpty | src/ReportEvaluator/report_evaluator.py:61-64 | no notes serialise to a lone newline |
| ReportNotes.SerializedAppend | src/ReportEvaluator/report_evaluator.py:59-64 | recording one more note adds exactly one line, numbered by the count of earlier notes |
| ReportNotes.LinesSnoc | src/ReportEvaluator/report_evaluator.py:61-63 | the lines of one more note are the earlier lines plus its own |
| ReportNotes.SerializedShows | src/ReportEvaluator/report_evaluator.py:59-64 | every note has its numbered line in the listing, and a falsy one shows the placeholder |
| TemplateGenerator.CombineGroupJsonTexts | src/DebateAndReport/template_generator/template_generator.py:9-16 | the loop returns the merged object of all texts' groups in order, or the first failing text's exception |
| TemplateGenerator.GroupsOfText | src/DebateAndReport/template_generator/template_generator.py:13-14 | an undecodable text raises JSONDecodeError and a non-dict AttributeError; a dict contributes its groups list, or nothing without one |
| TemplateGenerator.CombinedAppend | src/DebateAndReport/template_generator/template_generator.py:12-14 | the groups of two runs of texts are the two runs' groups concatenated, and the earlier run's failure wins |
| TemplateGenerator.CombinedOne | src/DebateAndReport/template_generator/template_generator.py:12-14 | one text merges to exactly its own groups |
| TemplateGenerator.ExtractTextFieldSegmentFirst | src/DebateAndReport/template_generator/template_generator.py:18-22 | a truthy segment field wins; otherwise the choice is the one the retrieval utilities make |
| TemplateGenerator.LastMark | src/DebateAndReport/template_generator/template_generator.py:40 | the last '#' followed by a digit before the end, with no newline before it, where the greedy match stops |
| TemplateGenerator.DigitsEnd | src/DebateAndReport/template_generator/template_generator.py:40 | the end of the run of ASCII digits starting at a position |
| TemplateGenerator.SegmentNumberOf | src/DebateAndReport/template_generator/template_generator.py:40-41 | an id base#n whose base has no newline carries the number n |
| TemplateGenerator.SegmentNumberUnmarked | src/DebateAndReport/template_generator/template_generator.py:40-41 | an id without '#' has segment number 0 |
| TemplateGenerator.SegmentNumberAfterNewline | src/DebateAndReport/template_generator/template_generator.py:40-41 | the match cannot cross a newline: with no '#' before the first newline the number is 0 |
| TemplateGenerator.SomesAppend | src/DebateAndReport/template_generator/template_generator.py:31-43 | the collected segments of two runs of lines are the two runs' segments concatenated |
| TemplateGenerator.SegmentLePreorder | src/DebateAndReport/template_generator/template_generator.py:44 | ordering segments by number and then text is a total preorder |
| TemplateGenerator.NonEmptyTexts | src/DebateAndReport/template_generator/template_generator.py:45 | no empty text is joined |
| TemplateGenerator.GetDocumentText | src/DebateAndReport/template_generator/template_generator.py:24-46 | the corpus loop returns exactly the specified document: the segments of the same base id, sorted, their non-empty texts joined by newlines |
| TemplateGenerator.SortedSegments | src/DebateAndReport/template_generator/template_generator.py:44 | the sorted segments are a permutation of the collected ones, in non-decreasing segment number |
| TemplateGenerator.AssembledOrderFree | src/DebateAndReport/template_generator/template_generator.py:44-45 | the document does not depend on the order of the corpus lines that hold its segments |
| TemplateGenerator.TwoSegments | src/DebateAndReport/template_generator/template_generator.py:44-45 | two segments come out in number order whichever line came first |
| TemplateGenerator.SkippedLine | src/DebateAndReport/template_generator/template_generator.py:32-39 | an undecodable line, one without a truthy id, or one of another document adds nothing wherever it stands |
| TemplateGenerator.BeforeMark | src/DebateAndReport/template_generator/template_generator.py:28 | the base of b#x is b for a base without '#' |
| TemplateGenerator.SameDocumentSegment | src/DebateAndReport/template_generator/template_generator.py:36-43 | a record with id base#n and a non-empty text is segment n of base |
| TemplateGenerator.OtherDocumentSkipped | src/DebateAndReport/template_generator/template_generator.py:39 | the base id is compared whole: a record of another base is skipped even when one id is a prefix of the other |
| PyText.Strip | src/IR_Ensemble/QA_Assistant/base.py:287 | the stripped text neither starts nor ends with whitespace |
| PyText.StripSlice | src/IR_Ensemble/QA_Assistant/base.py:287 | stripping removes only whitespace, and only at the two ends |
| PyText.StripIdempotent | src/IR_Ensemble/QA_Assistant/base.py:287 | stripping a stripped text changes nothing |
| PyText.SplitSepJoin | src/IR_Ensemble/QA_Assistant/base.py:287 | joining the pieces of a split with the separator gives the text back |
| PyText.SplitSepPieces | src/IR_Ensemble/QA_Assistant/base.py:287 | no piece of a split holds the separator |
| PyText.SliceEnd | src/InfoRetrieval/Utils.py:90 | a slice bound is clamped to the length, and a negative bound counts from the end, as Python slicing does |
| PyText.ExtractTag | src/IR_Ensemble/QA_Assistant/base.py:283-288 | there is a result iff both the opening and the closing tag occur, and it is then stripped |
| PyText.ExtractTagOf | src/IR_Ensemble/QA_Assistant/base.py:283-288 | a text holding one tagged block, with no other opening of that tag before it, yields the block's body stripped |
| PyJson.Index | src/IR_Ensemble/QA_Assistant/base.py:168 | subscripting succeeds iff the key is present, and a missing key raises KeyError on a dict and TypeError otherwise |
| PyJson.GetOr | src/IR_Ensemble/QA_Assistant/base.py:317 | get on a dict returns the bound value or the default; on anything else it raises AttributeError |
| PyJson.Iterate | src/IR_Ensemble/QA_Assistant/base.py:319 | lists iterate their items, dicts their keys and strings their characters; anything else raises TypeError |
| PyJson.Items | src/ReportEvaluator/report_evaluator.py:126 | a dict's items are its keys in first-occurrence order, each with its last bound value |
| PyJson.ItemsDistinct | src/ReportEvaluator/report_evaluator.py:126 | no key occurs twice among a dict's items |
| Json.Lookup | src/IR_Ensemble/QA_Assistant/base.py:316-317 | a key is found iff some member binds it, and the last such binding wins |
| Decimal.ValueOfToDecimal | src/IR_Ensemble/QA_Assistant/Search/SearcherDaemon.java:110 | parsing the decimal rendering of a number gives the number back |
| Decimal.ToDecimalInjective | src/IR_Ensemble/QA_Assistant/daemon_wrapper.py:25 | distinct numbers render differently |
| Strings.JoinContains | src/InfoRetrieval/Utils.py:117 | each part occurs in the joined text |
| Strings.DedupMembers | src/InfoRetrieval/Utils.py:77-84 | an insertion-ordered set holds exactly the elements of its input and is no longer than it |
| Strings.DedupDistinct | src/InfoRetrieval/Search/SynonymExpander.java:43-57 | an insertion-ordered set repeats nothing |

## Left out

- Lucene itself is not modelled: analysis, the index, BM25 scoring and the highlighter are parameters (`Search`, `Highlighter`, stored hits). `LuceneHolder` and `JsonIndexer` are not part of this model. `QueryResult` is folded into the datatypes.
- JSON parsing and printing (Jackson, `json.loads`, `json.dumps`) are codec parameters. The model's `Json` has integers, strings, booleans, null, lists and objects, but no floats.
- Floating point: RRF scores are exact reals, so rounding is not modelled. Float evaluation scores and `use_starter_kit: 1.0` cannot be written in the model's `Json`. `int(x * 0.025)` is an integer floor.
- Java `int` arithmetic wrap-around is not modelled: all integers are unbounded. Ranks, counts and lengths stay far below 2^31 in practice.
- Java `String.length()` and `substring` count UTF-16 code units (Search.java:257-258, DocumentSelection.java:133-139). The model counts characters, so a text with characters outside the Basic Multilingual Plane is cut at a different place.
- Ties in a ranking are broken by key order. The source keeps whatever order its hash map iterates in.
- Files, the clock, sleeping, threads, thread pools, semaphores, printing to stdout and stderr, logging, and `System.exit` as a process effect are not modelled. Every read file is an input value, every written file an output value, and an exit is an outcome value.
- LLM, OpenAI, Cohere and tiktoken calls are functions passed in. Their nondeterminism is not modelled: the same prompt always gets the same reply.
- `printRRFStatistics` only prints, and is not modelled.
- The Cohere rerank limiter in src/QA_Assistant/Rate_limits.py is not modelled: the retrieval core does not call it.
- SearcherDaemon.OneResponsePerRequest: states that every request is answered. At end of input the daemon interrupts the writer thread and shuts the executor down at once (SearcherDaemon.java:80-81), which can drop responses still queued or in flight. The thread pool and the writer queue are not modelled.
- Framing: only "\n" and "\r" are line terminators for Java's `^` and `$`. U+0085, U+2028 and U+2029 are not, and a byte of 0x80 or above is an ordinary character.
- LegacySearch.HighlightedFragment: the highlighter is a parameter, and its caught failure is its `None` result. A `RuntimeException` escaping the highlighter is not modelled.
- RootFusion.SearcherMain: reports the first failing query in list order, which is the failure `allOf(...).join()` relays (the leftmost failing future). The `CompletionException` that wraps it is not modelled: the outcome names the query.
- Reassembly.FetchFull: sees only the first index segment's `id` terms, while FetchSegment searches every segment; the model's single `terms` is exact only for a single-segment index.
- Synonyms.LoadSynonyms: lower-cases keys with `LowerAscii`, which maps only 'A'-'Z'. Java `toLowerCase()` also lowers other letters.
- Synonyms.SynonymExpander.ExpandQuery: lower-cases the query terms with `LowerAscii`, not Unicode `toLowerCase()`.
- RateLimits.Limiters.GatedResponse: models one pass of each bucket's waiting loop. A refused reservation comes back as the outcome, where the source sleeps and tries again.
- QaRateLimits.QaLimiters.GatedOpenaiCall: models one pass of the waiting loop: a refused acquisition is the outcome, with no sleep and retry.
- QaRateLimits.QaLimiters.GatedOpenaiStream: models one pass of the waiting loop: a refused acquisition is the outcome, with no sleep and retry.
- GenRateLimit.GenLimiters.GatedCallGen: models one pass of the waiting loop: a refused acquisition is the outcome, with no sleep and retry.
- IrTokenBucket.TokenBucket.TryReserve: keeps `inWindow <= capacity` (Within) only when the capacity and every weight are non-negative. The source never passes anything else.
- IrTokenBucket.TokenBucket.CreditById: keeps Within only for a non-negative capacity and weight.
- IrSearcher.ApplyRrfFusion: requires positive ranks, which Lucene's 1-based ranks always are.
- IrSearcher.ScoreAll: requires positive ranks.
- IrSearcher.SortAndLimit: requires positive ranks.
- LegacySearch.ApplyRrfFusion: requires positive ranks, which the 1-based hit positions always are.
- LegacySearch.ScoreAll: requires positive ranks.
- LegacySearch.SortAndLimit: requires positive ranks.
- QaAgent.BaseAgent.UpdateStatus: the write of the context file always succeeds. A failed `aiofiles` write (base.py:323-327), which leaves the status PARTIAL and the answer unchanged, is not modelled.
- InfoUtils.FetchAll: when several fetches fail, reports the first failure in queue order. `asyncio.gather` raises the one that fails first in time.
- QuestionSets.ProcessGroups: keeps chunk order for results and errors. The concurrency of `asyncio.gather` is not modelled.
- QuestionSets: the semaphore, the sleeps between calls and the prompt text are not modelled. The unreachable outer `except` (QuestionSetGenerator.py:91) has no counterpart. `run_question_set_pipeline` and `run_question_set_with_doc_id` only read and write files around `generate`.
- TemplateGenerator: `\d` is the ASCII digits '0'-'9'. Python's `\d` also matches other Unicode decimal digits.
- ConvertRun: only prints the over-limit warning, and the entry is returned either way. Citations are copied as they are, so a non-string citation passes through. `convert_file` and `main` are file I/O.
- RunFormat: `create_sample_run`, `validate_runs_file` and `main` (test_run_format.py:106-254) build a fixed example, read a file and print. None of them is modelled; only `validate_run_format` is.
