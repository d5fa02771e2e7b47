# Text segmentation and knowledge store of rosie, in Dafny

rosie turns a stream of transcribed speech into finished units and stores
them. This project models the sequential core of that pipeline and proves
what its code promises.

- **Topic buffer** (`TopicGroupingStrategy`, topic_grouping_strategy.py).
  - Incoming text is split into sentences and added to a buffer.
  - Voice commands (`new_note`, `discard`, `pause`, `resume`, `flush`) end, drop or toggle the topic.
  - A timer ends a topic that has been silent for longer than `max_gap` or open for longer than `max_lifetime`.
  - `stop` stores whatever is left.
  - A finished topic leaves through the completion callback as the sentences joined by spaces, with metadata.
- **Thought detectors** (`ThoughtCompletionDetector`, thought_detector.py and its earlier version thought_detector_phase1_backup.py).
  - Every update of the partial text is queued for analysis.
  - A worker turns queued texts into verdicts.
  - `process_text` accepts the first verdict that is for exactly the current text, says it is complete, and is confident enough.
- **Mock knowledge store** (`MockKnowledgeStore`, mock_knowledge_store.py): an in-memory dictionary of entries with keyword search, date-range queries, metadata merge, deletion and closing.
- **Store data types and factory** (knowledge_store.py).
  - The defaults that entry, fact and search-result constructors fill in.
  - The base store's unsupported optional operations.
  - How `create_knowledge_store` resolves a backend name.
- **`format_facts_count`** (banner_utils.py): a count of facts in words.

## Layout

| file | module | contents |
|---|---|---|
| wrappers.dfy | `Wrappers` | `Option` and `Result` |
| py_strings.dfy | `PyStrings` | the Python `str` operations the code relies on: `strip`, `lower`, `in`, `replace(p, "")`, `" ".join` |
| topic_sentences.dfy | `TopicSentences` | pure parts of the topic strategy: the regular-expression sentence split, the legacy cue matcher, the tool-name map, the choice of the command acted on |
| topic_grouping.dfy | `TopicGrouping` | the topic state as a value with one function per operation, properties of those functions, and the class `TopicGroupingStrategy` whose methods are proved to perform exactly those transitions |
| thought_reconcile.dfy | `ThoughtReconcile` | the verdict queue drain both detectors share |
| thought_detector.dfy | `ThoughtDetector` | the current detector, as a state value and as a class |
| thought_detector_phase1.dfy | `ThoughtDetectorPhase1` | the earlier detector, with its length guard, 0.8 threshold and result dictionary |
| knowledge_store.dfy | `KnowledgeStore` | entries, facts, search results, errors, backend resolution |
| mock_knowledge_store.dfy | `MockStore` | the mock store as a value and as a class, and the factory |
| banner_utils.dfy | `BannerUtils` | `format_facts_count` and the decimal rendering it uses |

Each stateful object follows the same pattern.
- Its state is a datatype, such as `Topic`, `Detector` or `Store`.
- A function gives the new state (and the result) of each operation.
- Lemmas state what those functions promise: invariants kept, exact effects, and what an operation leaves alone.
- A class holds the same state in fields. Each method's postcondition says its new state and result are what the function gives.

The analyser, the command classifier, the clock and `uuid4` become parameters:
- `Option<Analysis>` is what `_analyze_text` returned.
- `CommandReply` is what the classifier did.
- `now` is the clock reading.
- `newId` is the drawn id.

## Behaviour worth knowing

These follow from the code as written, and the model keeps them:

- **A topic can never be paused.**
  - The classifier's tool map only knows `new_note`, `discard_previous` and `flush_current` (topic_grouping_strategy.py:342-346).
  - Legacy fallback commands carry confidence 0.6, below the 0.7 needed to act on them (topic_grouping_strategy.py:373, :147).
  - So `pause` and `resume` are never acted on. `TopicSentences.PauseResumeNeverActedOn`, `TopicSentences.FallbackNeverActedOn` and `TopicGrouping.ProcessStaysOpen` prove this.
  - test_timing_controls.py:130-164 expects pausing to work. The `PAUSED` branches are still modelled.
- **`new_note` lower-cases the rest of the text** before it is buffered (topic_grouping_strategy.py:164).
- **Storing without a callback keeps the buffer.** `flush("store")` leaves the buffer untouched and returns `None`.
- **A `limit` of 0 or less still returns one match.** The loops of `search` and `get_entries_by_date` test the limit only after appending, so they return the first match when there is one (`MockStore.Cap`).
- **`update_entry_metadata` and `delete_entry` of the mock store skip the initialisation test.** They work on an uninitialised store.
- **The factory's final `else` is unreachable.** An unknown backend name fails in the enum lookup with `ValueError` first (`KnowledgeStore.CreateOutcomes`).

## Model

| member | source | states |
|---|---|---|
| `PyStrings.Strip` | topic_grouping_strategy.py:98-100 | `s.strip()` has no whitespace at either end and is no longer than `s` |
| `PyStrings.StripBounds` | topic_grouping_strategy.py:98-100 | `strip` keeps a middle slice of the text and removes only whitespace before and after it |
| `PyStrings.BlankIffAllSpace` | topic_grouping_strategy.py:110-111 | `not text or not text.strip()` holds exactly when every character is whitespace |
| `PyStrings.StripStripped` | topic_grouping_strategy.py:100 | stripping an already stripped sentence changes nothing |
| `PyStrings.LowerIdempotent` | knowledge_store.py:209 | lower-casing twice is lower-casing once |
| `PyStrings.ContainsIffOccurs` | topic_grouping_strategy.py:150 | `phrase in text` holds exactly when the phrase occurs at some index of the text |
| `PyStrings.RemoveAll` | topic_grouping_strategy.py:151 | `text.replace(phrase, "")` never lengthens the text and leaves it unchanged when the phrase does not occur |
| `PyStrings.JoinLength` | topic_grouping_strategy.py:237 | `" ".join` keeps every character of the pieces and adds one separator between each pair |
| `PyStrings.JoinAppend` | topic_grouping_strategy.py:237 | joining two non-empty lists is joining each and separating the two by one space |
| `PyStrings.JoinStripped` | topic_grouping_strategy.py:237 | joining non-empty stripped sentences gives a non-empty stripped text that begins with the first sentence and ends with the last |
| `TopicSentences.FirstBreak` | topic_grouping_strategy.py:98 | the leftmost index at or after a start where `(?<=[.!?])\s+` can match, with no match before it; none when there is no match |
| `TopicSentences.SpaceRunEnd` | topic_grouping_strategy.py:98 | the greedy `\s+` consumes a maximal whitespace run, at least one character when it starts on whitespace |
| `TopicSentences.SplitIntoSentencesSound` | topic_grouping_strategy.py:94-100 | every sentence is non-empty and stripped; every sentence but the last ends in `.`, `!` or `?`; no sentence holds another split point; the sentences hold exactly the non-blank characters of the text, in order; the result is empty exactly for blank text |
| `TopicSentences.RegexSplitPieces` | topic_grouping_strategy.py:98 | splitting a stripped non-empty text yields non-empty stripped pieces, all but the last ending a sentence |
| `TopicSentences.RegexSplitLetters` | topic_grouping_strategy.py:98 | the split drops only whitespace |
| `TopicSentences.KeepStrippedOfStripped` | topic_grouping_strategy.py:100 | the filter-and-strip comprehension keeps pieces that are already non-empty and stripped unchanged |
| `TopicSentences.StripLetters` | topic_grouping_strategy.py:98 | stripping keeps every non-blank character |
| `TopicSentences.LegacyCueOf` | topic_grouping_strategy.py:280-292 | the legacy matcher never yields `flush` |
| `TopicSentences.LegacyCueIgnoresCase` | topic_grouping_strategy.py:280 | the legacy matcher ignores case |
| `TopicSentences.MapToolCalls` | topic_grouping_strategy.py:336-353 | at most one command per tool call, never `pause` or `resume`, and none when no tool name is in the map |
| `TopicSentences.FirstActionable` | topic_grouping_strategy.py:146-152 | the index of the first command with confidence at least 0.7, every earlier one being below; none exactly when every command is below 0.7 |
| `TopicSentences.FallbackNeverActedOn` | topic_grouping_strategy.py:371-375 | a command found by the legacy fallback is never acted on |
| `TopicSentences.PauseResumeNeverActedOn` | topic_grouping_strategy.py:342-346 | no classifier reply and no fallback makes the strategy act on `pause` or `resume` |
| `TopicGrouping.FindVoiceCue` | topic_grouping_strategy.py:143-152 | the loop picks the first confident command's cue and removes its trigger phrase from the text, as `FirstActionable` specifies |
| `TopicGrouping.BlankTextIgnored` | topic_grouping_strategy.py:110-111 | blank text changes nothing, not even the command side buffer |
| `TopicGrouping.AcceptedTextAppends` | topic_grouping_strategy.py:195-205 | with no cue acted on and the topic open: the sentences become the old ones followed by the text's sentences (at least one more); the first timestamp is kept or set; the last becomes the current time; flags kept; nothing emitted |
| `TopicGrouping.PausedDropsText` | topic_grouping_strategy.py:190-193 | while paused, text with no cue acted on leaves the buffer and the callback log as they were |
| `TopicGrouping.FlushKeepsSide` | topic_grouping_strategy.py:220-268 | `flush` touches only the buffer and the callback log |
| `TopicGrouping.FlagAndStoreKeepsSide` | topic_grouping_strategy.py:160-162 | flagging and storing touches only the buffer and the callback log |
| `TopicGrouping.ApplyCueKeepsSide` | topic_grouping_strategy.py:154-188 | no voice cue changes the command side buffer, the time of the last command check or the timer |
| `TopicGrouping.SideBufferClearedByCheck` | topic_grouping_strategy.py:116-140 | non-blank text joins the side buffer stripped and after a space; when a check is due (5 s since the last one, or 2 s since the last text) the side buffer is cleared and the check time recorded, whatever the reply |
| `TopicGrouping.TickClearsSideBuffer` | topic_grouping_strategy.py:437-452 | a tick that asks the classifier clears the side buffer and records the time; a tick that does not leaves both |
| `TopicGrouping.ApplyDetectedKeepsSide` | topic_grouping_strategy.py:387-410 | acting on detected commands leaves the side buffer and the check time alone |
| `TopicGrouping.TimeoutsKeepSide` | topic_grouping_strategy.py:455-476 | the timeouts leave the side buffer and the check time alone |
| `TopicGrouping.FlushEmptyIsNoOp` | topic_grouping_strategy.py:230-234 | flushing an empty buffer changes nothing and returns nothing |
| `TopicGrouping.FlushStoreEmitsOnce` | topic_grouping_strategy.py:236-259 | storing a non-empty topic with a callback: exactly one callback call, with the sentences joined by spaces and metadata `topic`, both timestamps, the sentence count, the flags and no tags; returns that text; resets the buffer; for a well-formed buffer the text is non-empty and stripped |
| `TopicGrouping.StoreWithoutCallbackKeeps` | topic_grouping_strategy.py:239-268 | `flush("store")` without a callback leaves everything as it was and returns `None` |
| `TopicGrouping.DiscardEmitsNothing` | topic_grouping_strategy.py:261-266 | `flush("discard")` empties a non-empty buffer, calls no callback and returns `None` |
| `TopicGrouping.FlushStaysOpen` | topic_grouping_strategy.py:379-385 | flushing keeps an open topic open |
| `TopicGrouping.FlagAndStoreStaysOpen` | topic_grouping_strategy.py:185-187 | flagging and storing keeps an open topic open |
| `TopicGrouping.ApplyCueStaysOpen` | topic_grouping_strategy.py:154-188 | every cue but `pause` keeps an open topic open |
| `TopicGrouping.ProcessStaysOpen` | topic_grouping_strategy.py:102-208 | `process_text` keeps an open topic open, whatever the classifier replies |
| `TopicGrouping.ApplyDetectedStaysOpen` | topic_grouping_strategy.py:387-410 | acting on detected commands keeps an open topic open |
| `TopicGrouping.TimeoutsStayOpen` | topic_grouping_strategy.py:455-476 | the timeouts keep an open topic open |
| `TopicGrouping.TickStaysOpen` | topic_grouping_strategy.py:426-478 | a timer tick keeps an open topic open |
| `TopicGrouping.StopStaysOpen` | topic_grouping_strategy.py:480-490 | `stop` keeps an open topic open |
| `TopicGrouping.TickIdle` | topic_grouping_strategy.py:455-458 | a stopped timer does nothing; an empty or paused buffer never times out |
| `TopicGrouping.GapTimeoutFirst` | topic_grouping_strategy.py:460-467 | a gap longer than `max_gap` stores the topic once with `max_gap_exceeded` appended to its flags, whatever its lifetime, and empties the buffer |
| `TopicGrouping.LifetimeTimeout` | topic_grouping_strategy.py:469-476 | within the gap but past `max_lifetime`, the topic is stored once with `max_lifetime_exceeded` appended to its flags |
| `TopicGrouping.NoTimeoutWithinBounds` | topic_grouping_strategy.py:455-476 | within both bounds the timeouts change nothing |
| `TopicGrouping.StopEmptiesBuffer` | topic_grouping_strategy.py:480-490 | `stop` stops the timer and, with a callback, stores a non-empty topic exactly once and leaves the buffer empty |
| `TopicGrouping.FlushPreservesWellFormed` | topic_grouping_strategy.py:220-268 | `flush` keeps every buffered sentence non-empty and stripped, and timestamps present when there are sentences |
| `TopicGrouping.FlagAndStorePreservesWellFormed` | topic_grouping_strategy.py:160-162 | flagging and storing keeps the buffer well formed |
| `TopicGrouping.AcceptPreservesWellFormed` | topic_grouping_strategy.py:195-205 | accepting text keeps the buffer well formed |
| `TopicGrouping.ApplyCuePreservesWellFormed` | topic_grouping_strategy.py:154-188 | acting on a cue keeps the buffer well formed |
| `TopicGrouping.ProcessPreservesWellFormed` | topic_grouping_strategy.py:102-208 | `process_text` keeps the buffer well formed |
| `TopicGrouping.ApplyDetectedPreservesWellFormed` | topic_grouping_strategy.py:387-410 | acting on detected commands keeps the buffer well formed |
| `TopicGrouping.TimeoutsPreserveWellFormed` | topic_grouping_strategy.py:455-476 | the timeouts keep the buffer well formed |
| `TopicGrouping.TickPreservesWellFormed` | topic_grouping_strategy.py:426-478 | a timer tick keeps the buffer well formed |
| `TopicGrouping.StopPreservesWellFormed` | topic_grouping_strategy.py:480-490 | `stop` keeps the buffer well formed |
| `TopicGrouping.JoinLetters` | topic_grouping_strategy.py:237 | joining two sentence lists loses no non-blank character and adds none |
| `TopicGrouping.SentencesOfLetters` | topic_grouping_strategy.py:94-100 | the sentences of a run of texts hold exactly the non-blank characters of those texts |
| `TopicGrouping.ProcessAllExtends` | topic_grouping_strategy.py:195-205 | without a classifier, a run of non-blank texts only extends an open buffer: sentences in order, first timestamp kept or set, last timestamp the newest, nothing emitted |
| `TopicGrouping.TopicEmittedExactlyOnce` | topic_grouping_strategy.py:480-490 | a fresh strategy without a classifier, fed non-blank texts and then stopped, calls the callback exactly once, with every non-blank character of the texts, the first and last timestamps, the sentence count and no flags |
| `TopicGrouping.TopicGroupingStrategy.constructor` | topic_grouping_strategy.py:34-92 | an empty open buffer, an empty side buffer, the check time set to the current time, nothing emitted |
| `TopicGrouping.TopicGroupingStrategy.GetStatus` | topic_grouping_strategy.py:210-218 | returns the current status |
| `TopicGrouping.TopicGroupingStrategy.ResetBuffer` | topic_grouping_strategy.py:379-385 | empties the buffer and nothing else |
| `TopicGrouping.TopicGroupingStrategy.Flush` | topic_grouping_strategy.py:220-268 | performs the `flush` transition and returns its text |
| `TopicGrouping.TopicGroupingStrategy.FlagAndFlush` | topic_grouping_strategy.py:185-187 | appends the flag and stores when there are sentences |
| `TopicGrouping.TopicGroupingStrategy.ProcessText` | topic_grouping_strategy.py:102-208 | performs the `process_text` transition |
| `TopicGrouping.TopicGroupingStrategy.HandleCue` | topic_grouping_strategy.py:154-188 | performs the cue part of `process_text` |
| `TopicGrouping.TopicGroupingStrategy.AcceptSentences` | topic_grouping_strategy.py:190-205 | drops text while paused, otherwise updates the timestamps and appends the sentences |
| `TopicGrouping.TopicGroupingStrategy.ProcessDetectedCommands` | topic_grouping_strategy.py:387-410 | acts on the first confident command only |
| `TopicGrouping.TopicGroupingStrategy.Tick` | topic_grouping_strategy.py:430-476 | performs one iteration of the timer loop |
| `TopicGrouping.TopicGroupingStrategy.CheckTimeouts` | topic_grouping_strategy.py:455-476 | performs the gap and lifetime timeouts |
| `TopicGrouping.TopicGroupingStrategy.Stop` | topic_grouping_strategy.py:480-490 | stops the timer and stores what is left |
| `ThoughtReconcile.FirstAccepted` | thought_detector.py:176-184 | the index of the first verdict that is for exactly the partial text, complete and above the threshold, every earlier one failing; none exactly when no verdict qualifies |
| `ThoughtReconcile.DrainSound` | thought_detector.py:176-189 | a thought is returned exactly when some queued verdict is accepted. It is the partial text with that verdict's analysis, and only the verdicts after it stay queued. Otherwise the queue ends empty |
| `ThoughtReconcile.DrainLeavesSuffix` | thought_detector.py:176-187 | what stays queued is a suffix of the queue |
| `ThoughtReconcile.DrainKeepsAnalyzable` | thought_detector.py:176-184 | when every queued verdict is for an analysable text, so is every verdict left, and an accepted text is analysable |
| `ThoughtReconcile.AnalyzedVerdictsAnalyzable` | thought_detector.py:72-79 | the worker's verdicts are all for analysable texts and number at most the texts |
| `ThoughtDetector.WorkerDrainsQueue` | thought_detector.py:64-85 | running the worker over the work queue empties it and appends one verdict per text whose stripped form has at least three characters, in queue order, with the analyser's answer; partial text and last thought untouched |
| `ThoughtDetector.ProcessSound` | thought_detector.py:157-189 | the new text is always queued. A thought is returned exactly when a queued verdict is accepted at confidence above 0.7; it then becomes the last complete thought, the partial text is cleared and later verdicts stay queued. Otherwise the partial text is the new text and the result queue is empty |
| `ThoughtDetector.InitialValid` | thought_detector.py:44-62 | a new detector's result queue is consistent |
| `ThoughtDetector.WorkerPreservesValid` | thought_detector.py:72-79 | a worker step queues verdicts only for analysable texts |
| `ThoughtDetector.ProcessPreservesValid` | thought_detector.py:176-184 | `process_text` keeps that, and never accepts a text with fewer than three characters once stripped |
| `ThoughtDetector.StoppedWorkerIdle` | thought_detector.py:203-207 | once stopped, the worker changes nothing |
| `ThoughtDetector.ThoughtCompletionDetector.constructor` | thought_detector.py:44-62 | empty texts and queues, worker running |
| `ThoughtDetector.ThoughtCompletionDetector.WorkerStep` | thought_detector.py:64-85 | performs one worker iteration |
| `ThoughtDetector.ThoughtCompletionDetector.ProcessText` | thought_detector.py:157-189 | the draining loop performs `process_text` as `ProcessSpec` gives it |
| `ThoughtDetector.ThoughtCompletionDetector.Stop` | thought_detector.py:203-207 | clears the running flag and nothing else |
| `ThoughtDetectorPhase1.ProcessSound` | thought_detector_phase1_backup.py:176-214 | the text is queued exactly when longer than the last text queued, which it then becomes. Acceptance needs confidence above 0.8 and clears both the partial text and the last text queued. The dictionary and the running flag are untouched |
| `ThoughtDetectorPhase1.LastAnalyzedGrows` | thought_detector_phase1_backup.py:187-195 | between acceptances the last text queued never gets shorter, and a text no longer than it is not queued |
| `ThoughtDetectorPhase1.ResubmitAfterAcceptance` | thought_detector_phase1_backup.py:204-209 | after an acceptance the next non-empty text is queued again |
| `ThoughtDetectorPhase1.WaitSound` | thought_detector_phase1_backup.py:247-260 | `wait_for_result` queues the text and answers with the analysis stored for exactly that text, or `None` exactly when there is none |
| `ThoughtDetectorPhase1.WorkerDrainsQueue` | thought_detector_phase1_backup.py:69-95 | running the worker empties the work queue, appends one verdict per analysable text in order, keeps every stored key, and stores every successful analysis under its text |
| `ThoughtDetectorPhase1.WorkerStoresLast` | thought_detector_phase1_backup.py:83-86 | after the queue is drained, a text holds the analysis of its last successful occurrence in the queue, so a later analysis replaces an earlier one |
| `ThoughtDetectorPhase1.WorkerKeepsUnanalysed` | thought_detector_phase1_backup.py:83-86 | a text that is never analysed successfully while the queue drains keeps its dictionary entry, or its absence, unchanged |
| `ThoughtDetectorPhase1.StoredOnlyByWorker` | thought_detector_phase1_backup.py:83-86 | only a worker step with a successful analysis of an analysable text changes the dictionary, by storing under that text |
| `ThoughtDetectorPhase1.InitialValid` | thought_detector_phase1_backup.py:44-61 | a new detector's result queue is consistent |
| `ThoughtDetectorPhase1.WorkerPreservesValid` | thought_detector_phase1_backup.py:76-89 | a worker step queues verdicts only for analysable texts |
| `ThoughtDetectorPhase1.ProcessPreservesValid` | thought_detector_phase1_backup.py:198-209 | `process_text` keeps that, and never accepts a text with fewer than three characters once stripped |
| `ThoughtDetectorPhase1.ThoughtCompletionDetector.constructor` | thought_detector_phase1_backup.py:44-61 | empty texts, queues and dictionary, worker running |
| `ThoughtDetectorPhase1.ThoughtCompletionDetector.WorkerStep` | thought_detector_phase1_backup.py:69-95 | performs one worker iteration |
| `ThoughtDetectorPhase1.ThoughtCompletionDetector.Submit` | thought_detector_phase1_backup.py:184-195 | sets the partial text and queues it only when it has grown |
| `ThoughtDetectorPhase1.ThoughtCompletionDetector.ProcessText` | thought_detector_phase1_backup.py:176-214 | performs `process_text` as `ProcessSpec` gives it |
| `ThoughtDetectorPhase1.ThoughtCompletionDetector.WaitForResult` | thought_detector_phase1_backup.py:236-260 | performs the lookup of `wait_for_result` |
| `ThoughtDetectorPhase1.ThoughtCompletionDetector.Stop` | thought_detector_phase1_backup.py:262-266 | clears the running flag and nothing else |
| `KnowledgeStore.NewEntry` | knowledge_store.py:39-42 | metadata of `None` becomes the empty dictionary; every other field is as given |
| `KnowledgeStore.NewFact` | knowledge_store.py:57-62 | episode ids of `None` become the empty list; confidence defaults to 1.0; every other field is as given |
| `KnowledgeStore.NewSearchResult` | knowledge_store.py:76-79 | a total of 0 becomes the number of facts plus entries; any other total is kept |
| `KnowledgeStore.SearchResultTotal` | knowledge_store.py:65-79 | a total given as 0 or as the true count ends as the true count; the default result is empty with total 0 |
| `KnowledgeStore.DefaultUpdateEntryMetadata` | knowledge_store.py:176-183 | the base store never updates |
| `KnowledgeStore.DefaultDeleteEntry` | knowledge_store.py:185-190 | the base store never deletes |
| `KnowledgeStore.BackendNamed` | knowledge_store.py:21-24 | the enum lookup finds a member exactly when some member has that value, and the member found has it |
| `KnowledgeStore.CreateOutcomes` | knowledge_store.py:193-218 | by the lower-cased name, a mock store exactly for `mock`, `NotImplementedError` exactly for `graphiti`, and `ValueError` with the name exactly for anything else |
| `KnowledgeStore.ResolveIgnoresCase` | knowledge_store.py:209 | backend names are matched without regard to case |
| `KnowledgeStore.DefaultBackendIsGraphiti` | knowledge_store.py:206-213 | without an argument the environment variable decides, and without both the default `graphiti` is not implemented |
| `KnowledgeStore.BackendValueRoundTrip` | knowledge_store.py:21-24 | each backend's value looks up that backend and no other |
| `MockStore.ValuesIndexed` | mock_knowledge_store.py:64 | `_entries.values()` lists, in insertion order, the entry stored under each key |
| `MockStore.ValuesAppend` | mock_knowledge_store.py:49 | storing under a fresh key adds the entry at the end of the iteration order |
| `MockStore.MatchingSound` | mock_knowledge_store.py:60-66 | keyword matching keeps exactly the entries whose lower-cased content holds the lower-cased query, in order |
| `MockStore.WithinSound` | mock_knowledge_store.py:94-101 | the date filter keeps exactly the entries with `start <= timestamp <= end`, a missing bound being no bound, in order |
| `MockStore.MatchingCut` | mock_knowledge_store.py:67-68 | stopping once the limit is reached keeps the first matches |
| `MockStore.WithinCut` | mock_knowledge_store.py:102-103 | stopping once the limit is reached keeps the first entries in range |
| `MockStore.InsertSound` | mock_knowledge_store.py:106 | inserting into a newest-first list keeps it newest first |
| `MockStore.InsertPermutes` | mock_knowledge_store.py:106 | inserting adds exactly the one entry |
| `MockStore.NewestFirstSound` | mock_knowledge_store.py:106 | the sort returns the same entries, newest first |
| `MockStore.UninitializedRaises` | mock_knowledge_store.py:37-90 | `add_entry`, `search`, `get_entry` and `get_entries_by_date` raise `RuntimeError` and change nothing on an uninitialised store |
| `MockStore.AddSound` | mock_knowledge_store.py:32-50 | the entry has the new id, the content, the given timestamp or else the current time, the given metadata or else `{}`, and no facts. `get_entry` finds it, the store stays consistent, and a fresh id puts it last |
| `MockStore.SearchSound` | mock_knowledge_store.py:52-75 | the matching entries in store order, cut off after the limit (at least 1). The total counts them whether or not they are returned, and there are never facts |
| `MockStore.ByDateSound` | mock_knowledge_store.py:84-108 | the result is newest first and is a permutation of the entries in range, in store order, cut off after the limit (at least 1) |
| `MockStore.UpdateSound` | mock_knowledge_store.py:117-124 | `True` exactly for a stored id. Only that entry's metadata changes: given keys take the new values and other keys keep theirs. An unknown id changes nothing |
| `MockStore.WithoutSound` | mock_knowledge_store.py:128-129 | removing an id from the key order keeps every other key, once |
| `MockStore.DeleteSound` | mock_knowledge_store.py:126-131 | `True` exactly for a stored id. The entry is gone and `get_entry` then gives `None`; the others keep their order. An unknown id changes nothing |
| `MockStore.CloseSound` | mock_knowledge_store.py:110-113 | `close` empties the store and marks it uninitialised, so searching raises; re-initialising gives an empty usable store |
| `MockStore.InitializePreservesWellFormed` | mock_knowledge_store.py:28-30 | `initialize` keeps the store well formed and its entries unchanged |
| `MockStore.MockKnowledgeStore.constructor` | mock_knowledge_store.py:24-26 | an empty, uninitialised store that satisfies the object invariant (key order and dictionary agree) |
| `MockStore.MockKnowledgeStore.Initialize` | mock_knowledge_store.py:28-30 | marks the store initialised and nothing else, keeping the object invariant |
| `MockStore.MockKnowledgeStore.AddEntry` | mock_knowledge_store.py:32-50 | performs `add_entry`, keeping the object invariant |
| `MockStore.MockKnowledgeStore.Search` | mock_knowledge_store.py:52-75 | the collecting loop with its early stop returns what `SearchSpec` gives |
| `MockStore.MockKnowledgeStore.GetEntry` | mock_knowledge_store.py:77-82 | the entry stored under the id, `None` when there is none, `RuntimeError` when uninitialised |
| `MockStore.MockKnowledgeStore.GetEntriesByDate` | mock_knowledge_store.py:84-108 | the filtering loop with its skips and early stop, then the sort, returns what `ByDateSpec` gives |
| `MockStore.MockKnowledgeStore.Close` | mock_knowledge_store.py:110-113 | empties the store and marks it uninitialised; the result satisfies the object invariant |
| `MockStore.MockKnowledgeStore.UpdateEntryMetadata` | mock_knowledge_store.py:117-124 | performs the metadata merge, keeping the object invariant |
| `MockStore.MockKnowledgeStore.DeleteEntry` | mock_knowledge_store.py:126-131 | performs the deletion, keeping the object invariant |
| `MockStore.CreateKnowledgeStore` | knowledge_store.py:193-218 | a fresh empty mock store satisfying the object invariant exactly when the name resolves to `mock`, otherwise the factory's error |
| `BannerUtils.NatDigits` | banner_utils.py:56 | the decimal digits of a natural number are a non-empty string of digits |
| `BannerUtils.ParseDecimal` | banner_utils.py:56 | the decimal rendering of an integer parses back to it |
| `BannerUtils.FormatFactsCount` | banner_utils.py:49-56 | never empty; `no facts` exactly for 0; `1 fact` exactly for 1; for every other count it begins with the decimal count, and for counts other than 0 and 1 it is the decimal count followed by ` facts` |
| `BannerUtils.CountOfFormat` | banner_utils.py:49-56 | the wording reads back as its count |
| `BannerUtils.FormatInjective` | banner_utils.py:49-56 | different counts are never worded alike |

## Left out

- Threads, locks and waiting are not modelled. This covers `RLock`, the timer and worker threads, `wait(1.0)`, the polling in `wait_for_result`, and the `join` in `stop`. One timer iteration is `Tick` and one worker iteration is `WorkerStep`, each run to completion. Interleavings are not modelled.
- The command classifier (OpenAI tool calling) and the thought analyser (LiteLLM) are not modelled. Their outcomes are parameters: `CommandReply` (tool calls, or a raised exception) and `Option<Analysis>`. The prompts are left out too.
- Console and log output are left out. This covers `_print_command_banner`, `format_complete_thought`, `print_banner`, `format_duration` and the logger calls.
- The clock, `uuid4` and `os.getenv` are parameters (`now`, `newId`, `env`).
- Datetimes are numbers: seconds as `real` in the topic strategy, an integer `Timestamp` in the store. ISO formatting of the metadata timestamps is not modelled, so the timestamps are passed through as values.
- `lower` is modelled on ASCII letters only; Unicode case mapping is not covered. (Whitespace for `strip`, `isspace` and `\s` is Python's full table.)
- Entries are values, so the aliasing between a returned entry and the stored one is not captured. In Python, mutating a returned entry's metadata dictionary changes the stored entry.
- The completion callback is a log of calls (`emitted`). Work the callback itself does, including re-entering the strategy, is not modelled.
- The `__post_init__` methods are functions that build the object with its defaults (`NewEntry`, `NewFact`, `NewSearchResult`), not methods that patch a built object.
- The abstract `KnowledgeStore` base class is not a trait. Its default optional operations are plain functions, and the mock store is a class of its own.
- The message of the enum's `ValueError` is not modelled. The error carries the looked-up value only.
- `text_buffer`, `model`, `debug` and `short_gap` are kept or ignored without effect. The code never reads them in the modelled operations.
- `MockStore.ByDateSound` states that the result is newest first and a permutation of the kept entries. It does not state that entries with equal timestamps keep their store order. `NewestFirst` is stable by construction, but no lemma states it.
- The sentence split is modelled for the one pattern `(?<=[.!?])\s+`. Python's regular-expression engine is not modelled.
- graphiti_store.py, the Graphiti exploration scripts, the application scripts (complete_thoughts.py, speech_demo.py), grouping_strategies.py, thought_grouping_strategy.py, voice_command_prompts.py and logging_config.py are not part of this model. They are wrappers over foreign libraries, audio and threading glue, or prompt text.
