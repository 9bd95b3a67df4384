# exoclaw: results that do not depend on how the work was cut up

This project models the parts of exoclaw whose result must not depend on how work was cut up: by input
chunks, by crashes, by interleavings, by consolidation passes, by read or write sizes. It states what each of
those parts is for and proves it in Dafny 4.11. `dafny verify dfyconfig.toml` checks everything.

## What is modelled

- **Streaming HTML tokenizer** (`Text`, `Entities`, `Tokenizer`, `TokenizerAgreement`, `ChunkInvariance`,
  `ChunkProof`, `ChunkTheorem`, `ChunkExamples`, `ChunkMarks`, `References`, `WrittenPage`). The scanner keeps a
  partial-token buffer and a raw-text mode and holds back entities that a chunk boundary could split. The class documentation promises that chunks do
  not matter. That is proved exactly: it holds for an input if and only if the input is *steady*, that is, no
  start tag is parsed differently when the buffer ends after the point where the completeness check first lets
  it through. For the module's own decoder that is read off the tag without trying any cut: no name or value
  character of a script or style tag, and nothing at all of another tag, comes after that point. Inputs with
  quotes only around attribute values are steady; an input with a quote inside an attribute name is given that
  is not. And a page written from tags, texts, comments and scripts, in any letter case, comes back as those.
- **Code spans and block emission** (`CodeSpan`, `BlockEmission`). The delimiter search and padding against a
  reader for section 6.1 of CommonMark 0.31.2, and the streamed emission of blocks against the fold of `_join`.
- **Batch completion** (`FileOrder`, `BatchDirectory`, `BatchProtocol`, `BatchContents`, `BatchRegistration`,
  `MemoryBatch`, `MemoryContents`). The durable store's steps with a journal, with crashes between any two of them and in the middle of one; the
  in-memory store's lock sections under any interleaving; the agreement of the two; and for both, exactly when a
  new member may still register, when an announced batch id may be reused, and what an announcement says in
  terms of the events of its run.
- **Layout** (`Layout`, `LayoutSound`, `LayoutPercent`, `LayoutHorizontal`, `LayoutShares`, `LayoutEngine`).
  Containment and separation of blocks under floor division, percentages and gaps, exactly when every container's
  children fit; how a box is used up; and where each child stands.
- **Consolidation** (`Consolidation`, `ConsolidationRuns`). An append-only log, a moving boundary repaired at
  tool calls, and a rolling summary, over whole runs.
- **Context compaction** (`History`, `Compaction`, `Pairing`). Clearing old tool results to a budget, and
  dropping or summarising old messages without separating calls from results.
- **Cron** (`Cron`, `CronRuns`, `CronLiveness`). Timer ticks, deferral to the heartbeat and flushes over whole
  runs, that repeating jobs stay armed, and what a restart of the process loses.
- **Steering mailbox** (`MailboxLines`, `MailboxReading`, `Mailbox`, `MailboxRuns`). The file as text, its lines
  as JSON, and the rename, read and unlink steps with exceptions and crashes between them.
- **Voice upload** (`Base64`, `AudioBody`, `AudioRequest`). The streaming encoder against RFC 4648, the body state
  machine, and the body read as JSON.
- **Chat request body** (`JsonString`, `Json`, `JsonEnds`, `JsonBody`). The spliced, streamed JSON text against a
  reader for RFC 8259. The same reader with Python's three extra literals reads the mailbox.
- **Loop detection** (`LoopDetection`). A bounded history against the whole trace.

`Basics` holds what several of them share. Objects whose methods update fields are classes, and their methods
are tied to functions of the old state; the theorems over runs are about those functions.

## Where code and documentation differ

The model follows the code.

- The tokenizer's promise that chunk boundaries do not matter (html_to_markdown.py:1054-1069) fails for start
  tags that have quotes elsewhere than around attribute values: `_can_complete_start_tag` honours quotes
  anywhere, `_consume_start_tag` only after `=` (`ChunkExamples.StrayQuoteIsNotChunkInvariant`).
- `_emit_block` mirrors `_join` except after a block that is a single newline, which it counts as a demand for
  two (`BlockEmission.LoneNewlineExample`), and for bodies that end in other white space.
- `register` is documented as idempotent and nothing more; a member registered after a decision to announce can
  complete unannounced (`BatchRegistration.LateRegistrationIsSilenced`).
- Reuse of an announced batch id clears the sentinel, but a workflow or call that still has to mark the old run
  writes it again and silences the new one (`BatchRegistration.ReuseIsSafeExactlyWhen`,
  `MemoryBatch.ReuseIsSafeExactlyWhenQuiet`).
- Cron advances a deferred job as if it had run; the queue is in memory only, so after a restart a queued one-shot
  job is disabled in the file and never called (`CronRuns.QueuedOneShotIsLost`).
- The summarising policy speaks of carrying everything over; tool results between the chunk's end and the
  repaired boundary reach neither the summary nor the tail (summarizing_policy.py:183, 202-203;
  `ConsolidationRuns.SkippedResultExample`).
- Loop detection documents `critical_threshold` ping-pong *cycles*; the code counts calls, two per cycle
  (`LoopDetection.StopsAtHalfTheCycles`). A `history_size` of zero keeps everything, because `[-0:]` is the whole
  list, and a negative one keeps nothing.
- After an error in the middle of a scratch file the request carries what was read *and* the inline preview
  (provider.py:718-733; `JsonBody.PreviewAloneExactlyWhenNothingRead`), not the preview alone.
- The mailbox relies on one record per line, but JSON leaves U+0085, U+2028 and U+2029 unescaped and
  `splitlines` cuts there; a piece that is JSON but no object makes this drain and every later one raise
  (`MailboxRuns.PoisonStopsTheMailbox`).

## Model

| member | source | states |
|---|---|---|
| ChunkTheorem.ChunkInvariantExactlyWhenSteady | packages/exoclaw-tools-web/exoclaw_tools_web/html_to_markdown.py:1054-1069 | for every input and every way of cutting it into chunks, feeding the chunks and finalizing yields the tokens of feeding it whole (adjacent text merged), if and only if no start tag of the input drifts past the point where the scan was first allowed to parse it |
| ChunkMarks.ChunkInvariantExactlyWhenPunctual | packages/exoclaw-tools-web/exoclaw_tools_web/html_to_markdown.py:1054-1069 | with the module's own decoder, an input is chunk-invariant if and only if no start tag reaches past the point where the scan was first allowed to parse it, or, for a script or style tag, only blanks, stray `=`, a closing quote and `>` do |
| ChunkMarks.DriftsExactlyWhenLate | packages/exoclaw-tools-web/exoclaw_tools_web/html_to_markdown.py:1331-1391 | some cut from `m` on yields another start token exactly when a character that is taken into a name or a value stands at or after `m`; for every decoder that does not read `&;` as `&` |
| ChunkMarks.CutDecodesOtherwise | packages/exoclaw-tools-web/exoclaw_tools_web/html_to_markdown.py:106-154 | a text without its last character decodes to another text |
| ChunkMarks.ClosingQuoteExample | packages/exoclaw-tools-web/exoclaw_tools_web/html_to_markdown.py:1305-1391 | a script tag whose first quote is stray is chunk-invariant exactly when nothing but the closing quote follows its first `>` |
| ChunkExamples.TidyInputsAreChunkInvariant | packages/exoclaw-tools-web/exoclaw_tools_web/html_to_markdown.py:1305-1391 | inputs whose start tags use quotes only as the closed delimiters of a value after `=` are chunk-invariant, raw-text mode and its trimmed buffer included |
| ChunkExamples.StrayQuoteIsNotChunkInvariant | packages/exoclaw-tools-web/exoclaw_tools_web/html_to_markdown.py:1305-1391 | a concrete input with a quote inside an attribute name yields other tokens when it is cut inside that tag: the completeness check honours quotes anywhere, the attribute parser only after `=` |
| ChunkTheorem.RunStands | packages/exoclaw-tools-web/exoclaw_tools_web/html_to_markdown.py:1081-1090 | from any buffered state of a steady input, every remaining chunking gives the tokens of one scan of buffer and rest |
| ChunkTheorem.UnsteadyShows | packages/exoclaw-tools-web/exoclaw_tools_web/html_to_markdown.py:1092-1273 | for every unsteady input there is a two-chunk cut whose tokens differ from the whole input's |
| ChunkTheorem.TagCutShort | packages/exoclaw-tools-web/exoclaw_tools_web/html_to_markdown.py:1331-1391 | when a raw-text tag is parsed before its own `>` arrived and its token cannot change, the leftover of the tag is swallowed by raw-text mode without effect |
| ChunkInvariance.RawDrop | packages/exoclaw-tools-web/exoclaw_tools_web/html_to_markdown.py:1114-1146 | raw text in front of the close tag can be dropped without changing the later tokens |
| ChunkInvariance.TrimKeepsClose | packages/exoclaw-tools-web/exoclaw_tools_web/html_to_markdown.py:1126-1136 | keeping the last `len(close)` characters of a raw-text buffer can never cut off the beginning of the close tag |
| ChunkProof.TextPeel | packages/exoclaw-tools-web/exoclaw_tools_web/html_to_markdown.py:1275-1296 | emitting part of a text run early at a separable point gives the same merged text |
| ChunkProof.SteadyTagHasNoLt | packages/exoclaw-tools-web/exoclaw_tools_web/html_to_markdown.py:1331-1391 | a tag that yields the same token at every cut from some point on holds no `<` from there on |
| TokenizerAgreement.StepAgree | packages/exoclaw-tools-web/exoclaw_tools_web/html_to_markdown.py:1092-1273 | a step settled by a prefix of the buffer is the same step in every buffer that agrees on that prefix |
| TokenizerAgreement.ConsumeAgree | packages/exoclaw-tools-web/exoclaw_tools_web/html_to_markdown.py:1331-1391 | a start tag closed within the agreeing prefix is parsed to the same token |
| TokenizerAgreement.CutTagRunsOut | packages/exoclaw-tools-web/exoclaw_tools_web/html_to_markdown.py:1331-1391 | cut anywhere inside the tag, the attribute loop runs to the cut |
| Tokenizer.CanCompleteStartTag | packages/exoclaw-tools-web/exoclaw_tools_web/html_to_markdown.py:1305-1329 | true exactly when there is a `>` outside quotes (quotes counting anywhere) or the input has ended |
| Tokenizer.DecideRaw | packages/exoclaw-tools-web/exoclaw_tools_web/html_to_markdown.py:1111-1146 | in raw text: the close tag and its `>`, what is kept while they are missing |
| Tokenizer.DecideMarkup | packages/exoclaw-tools-web/exoclaw_tools_web/html_to_markdown.py:1149-1235 | comments, declarations, processing instructions, end tags and a literal `<` |
| Tokenizer.DecideEndTag | packages/exoclaw-tools-web/exoclaw_tools_web/html_to_markdown.py:1186-1206 | the name and the first `>`, searched behind the name |
| Tokenizer.ConsumeStartTag | packages/exoclaw-tools-web/exoclaw_tools_web/html_to_markdown.py:1331-1391 | the start tag's name, attributes, self-closing flag and length, as the specification of the attribute loop gives them |
| Tokenizer.ConsumeAttributes | packages/exoclaw-tools-web/exoclaw_tools_web/html_to_markdown.py:1340-1388 | the attribute loop equals its turn-by-turn specification from any position |
| Tokenizer.StreamingTokenizer.DecideStep | packages/exoclaw-tools-web/exoclaw_tools_web/html_to_markdown.py:1092-1273 | one turn of the scan: what is emitted, how much is consumed, whether raw text begins, or how much is kept |
| Tokenizer.StreamingTokenizer.Scan | packages/exoclaw-tools-web/exoclaw_tools_web/html_to_markdown.py:1092-1273 | the emitted tokens grow by exactly the tokens of the buffer, and the state left is its residue |
| Tokenizer.StreamingTokenizer.Feed | packages/exoclaw-tools-web/exoclaw_tools_web/html_to_markdown.py:1081-1084 | feeding appends the tokens of old buffer plus chunk and keeps the residue |
| Tokenizer.StreamingTokenizer.Finalize | packages/exoclaw-tools-web/exoclaw_tools_web/html_to_markdown.py:1086-1090 | finalizing emits the tokens of the buffer at end of input and empties it |
| Tokenizer.StreamingTokenizer.Tokenize | packages/exoclaw-tools-web/exoclaw_tools_web/html_to_markdown.py:1081-1090 | from a new tokenizer, feeding all chunks and finalizing emits exactly the run the theorems speak about |
| Entities.SafeSplitDecodesTheSame | packages/exoclaw-tools-web/exoclaw_tools_web/html_to_markdown.py:1278-1296 | for every buffer and continuation, decoding the safe prefix and later the rest gives the text of decoding it all at once |
| Entities.UnescapeSplits | packages/exoclaw-tools-web/exoclaw_tools_web/html_to_markdown.py:106-154 | decoding distributes over concatenation wherever no unit straddles the cut |
| Entities.SafeSplitSettles | packages/exoclaw-tools-web/exoclaw_tools_web/html_to_markdown.py:1278-1296 | when the whole buffer is released, every ampersand in it has met its terminator, a break or the end of its 32-character window |
| Entities.EntityUnescape | packages/exoclaw-tools-web/exoclaw_tools_web/html_to_markdown.py:106-154 | the decoder's loop computes the unit-by-unit decoding for any table of references |
| References.NumericReferencesDecode | packages/exoclaw-tools-web/exoclaw_tools_web/html_to_markdown.py:138-145 | with the module's own table, every text comes back from its decimal and from its hexadecimal references |
| References.PageDecodes | packages/exoclaw-tools-web/exoclaw_tools_web/html_to_markdown.py:106-154 | every text comes back from its form with `&`, `<`, `>` and `"` written as named references |
| References.EscapedTextArrives | packages/exoclaw-tools-web/exoclaw_tools_web/html_to_markdown.py:1081-1296 | any text, so escaped and fed to the tokenizer in any chunks, arrives as one text token holding exactly that text |
| WrittenPage.WrittenPageArrives | packages/exoclaw-tools-web/exoclaw_tools_web/html_to_markdown.py:1092-1391 | any page written from texts, start tags with attributes, end tags, comments, declarations, instructions, scripts and styles, names in any mix of cases, values escaped, and fed in any chunks, comes back as exactly those pieces: lower-case names, attributes in order with their values, self-closing for void names and `/>` |
| WrittenPage.StartTagReads | packages/exoclaw-tools-web/exoclaw_tools_web/html_to_markdown.py:1331-1391 | a written start tag is one start token with the name in lower case, its attributes in order with their decoded values, self-closing for each void name and each `/>`, and takes exactly its own characters |
| WrittenPage.AttributesRead | packages/exoclaw-tools-web/exoclaw_tools_web/html_to_markdown.py:1349-1387 | quoted, bare and valueless attributes are read in order, and quotes are met around values only |
| WrittenPage.RawReads | packages/exoclaw-tools-web/exoclaw_tools_web/html_to_markdown.py:1111-1146 | in a script or style everything up to the close tag, in any case, is dropped and the close tag is one end token |
| WrittenPage.ElementReads | packages/exoclaw-tools-web/exoclaw_tools_web/html_to_markdown.py:1111-1232 | an open script or style tag in any case, any text without a close tag and the close tag are exactly a start and an end token |
| WrittenPage.LowerExactly | packages/exoclaw-tools-web/exoclaw_tools_web/html_to_markdown.py:1118 | a letter lowers to `c` exactly when it is `c` or its capital in the two alphabets |
| WrittenPage.LastBracketReads | packages/exoclaw-tools-web/exoclaw_tools_web/html_to_markdown.py:1236-1243 | a `<` at the very end of the input is text |
| References.NamedReferencesDecode | packages/exoclaw-tools-web/exoclaw_tools_web/html_to_markdown.py:76-104 | each of the named references decodes to the character with the code point HTML gives it |
| References.ReferenceStaysOtherwise | packages/exoclaw-tools-web/exoclaw_tools_web/html_to_markdown.py:106-154 | a reference is decoded if the table knows it and it has at most thirty characters between `&` and `;`, and stays as it is otherwise |
| References.NoSemicolonNoChange | packages/exoclaw-tools-web/exoclaw_tools_web/html_to_markdown.py:106-154 | a text without a semicolon decodes to itself |
| Entities.DecodeOne | packages/exoclaw-tools-web/exoclaw_tools_web/html_to_markdown.py:118-153 | one turn decodes one unit and advances past it |
| Entities.FindTerminator | packages/exoclaw-tools-web/exoclaw_tools_web/html_to_markdown.py:124-140 | the inner scan finds the terminator within the window and before any break |
| Entities.SafeTextSplit | packages/exoclaw-tools-web/exoclaw_tools_web/html_to_markdown.py:1278-1296 | the backward scan returns the last ampersand of the window that has no `;` after it, otherwise the whole length |
| CodeSpan.CodeSpanRoundTrip | packages/exoclaw-tools-web/exoclaw_tools_web/html_to_markdown.py:818-849 | for every non-empty text and every legal continuation, parsing the rendered span by section 6.1 of CommonMark 0.31.2 gives back the text with CR and LF as spaces, in every padding case |
| CodeSpan.RenderCode | packages/exoclaw-tools-web/exoclaw_tools_web/html_to_markdown.py:818-849 | the rendered element parses back to the text with each CR and LF as a space, with a shortest delimiter |
| CodeSpan.PickDelimiter | packages/exoclaw-tools-web/exoclaw_tools_web/html_to_markdown.py:834-838 | the delimiter search terminates with the shortest length that is no maximal backtick run of the text |
| CodeSpan.BacktickRuns | packages/exoclaw-tools-web/exoclaw_tools_web/html_to_markdown.py:952-968 | the set of lengths of the maximal backtick runs |
| CodeSpan.CloserSkipsContent | packages/exoclaw-tools-web/exoclaw_tools_web/html_to_markdown.py:818-849 | the reader's search for the closing run passes over the whole content |
| BlockEmission.EmissionIsTheFoldExactlyWhen | packages/exoclaw-tools-web/exoclaw_tools_web/html_to_markdown.py:1647-1694 | the fragments sunk add up to the left fold of `_join` without outer newlines, if and only if no block ends in other white space and no lone-newline block widens a gap |
| BlockEmission.WellFormedBlocksAreTheFold | packages/exoclaw-tools-web/exoclaw_tools_web/html_to_markdown.py:1647-1694 | blocks that are bodies without trailing blanks, empty, or runs of two or more newlines are emitted as the fold |
| BlockEmission.LoneNewlineExample | packages/exoclaw-tools-web/exoclaw_tools_web/html_to_markdown.py:1678-1685 | a block of one newline between two bodies gives an empty line where the fold breaks the line once |
| BlockEmission.Emitter.EmitBlock | packages/exoclaw-tools-web/exoclaw_tools_web/html_to_markdown.py:1647-1694 | one emission appends exactly the capped separator and the stripped body, and records the newline demand |
| BlockEmission.Emitter.EmitAll | packages/exoclaw-tools-web/exoclaw_tools_web/html_to_markdown.py:1607-1694 | emitting a list of blocks one after another from a new emitter |
| BlockEmission.JoinKeepsCore | packages/exoclaw-tools-web/exoclaw_tools_web/html_to_markdown.py:663-675 | joining one more block to the fold joins it to the fold's core and trailing newline count |
| BlockEmission.JoinBreaksAtMostTwice | packages/exoclaw-tools-web/exoclaw_tools_web/html_to_markdown.py:663-675 | between two bodies stand as many newlines as the larger side asks for, two at most |
| BatchProtocol.FullBatchIsOwed | packages/exoclaw-executor-dbos/exoclaw_executor_dbos/batch_store.py:122-196 | over every run with crashes and journal replay at any point, members registering between completions too until someone has decided to announce: all members complete on disk and no sentinel means that some unfinished workflow still owes the announcement |
| BatchContents.FinishedBatchWasAnnounced | packages/exoclaw-executor-dbos/exoclaw_executor_dbos/batch_store.py:248-275 | in the same runs: when every member's workflow has finished, the batch was announced at least once, and every announced snapshot lists exactly the members that the run registered, in file order, goes to the route of the run's first registration, and tells in each row the title, status and path of the completion written last for that task when it was decided |
| BatchContents.AnnouncementsAreTruthful | packages/exoclaw-executor-dbos/exoclaw_executor_dbos/batch_store.py:122-185 | every announcement of every run, told from the events alone: its route, and the rows of the decision it came from, "(no file)" standing for a missing or empty path |
| BatchContents.DirectoryIsToldByEvents | packages/exoclaw-executor-dbos/exoclaw_executor_dbos/batch_store.py:77-143 | the directory holds exactly the members registered since the run began, each as its last written completion says, and the first routing |
| BatchProtocol.SentinelMeansPublished | packages/exoclaw-executor-dbos/exoclaw_executor_dbos/batch_store.py:189-196 | in the same runs: the sentinel never stands without an earlier announcement, every announcement is of the full batch, and reuse of a batch id only follows an announcement |
| BatchRegistration.RegistrationIsSafeExactlyWhenUndecided | packages/exoclaw-executor-dbos/exoclaw_executor_dbos/batch_store.py:77-119 | in every reachable state without the sentinel, registering a new member is safe, that is, every continuation that ends with all members complete and all workflows finished has announced the full batch, if and only if no workflow holds a decision to announce |
| BatchRegistration.LateRegistrationIsSilenced | packages/exoclaw-executor-dbos/exoclaw_executor_dbos/batch_store.py:77-119 | whenever some workflow holds a decision, a continuation in which the late member completes, everything finishes and no announcement of the full batch was made |
| BatchRegistration.DecidedStateIsReached | packages/exoclaw-executor-dbos/exoclaw_executor_dbos/batch_store.py:122-185 | such states occur: one member registered and completed |
| BatchRegistration.ReuseIsSafeExactlyWhen | packages/exoclaw-executor-dbos/exoclaw_executor_dbos/batch_store.py:77-119 | in every reachable state with the sentinel, reusing the id is safe, in the same sense, if and only if no workflow has yet to write the sentinel and none that has yet to record belongs to another member |
| BatchRegistration.OldDecisionSilences | packages/exoclaw-executor-dbos/exoclaw_executor_dbos/batch_store.py:248-275 | a workflow that decided to announce the old run and has not journaled its mark can leave a new run complete, finished and unannounced |
| BatchRegistration.OldRecordSilences | packages/exoclaw-executor-dbos/exoclaw_executor_dbos/batch_store.py:122-143 | so can a workflow of another member that records only after the new run was announced |
| BatchRegistration.UnsafeReuseIsReached | packages/exoclaw-executor-dbos/exoclaw_executor_dbos/batch_store.py:189-196 | such a state occurs: a crash between the sentinel and the journal entry of the mark |
| BatchProtocol.StepKeeps | packages/exoclaw-executor-dbos/exoclaw_executor_dbos/batch_store.py:122-196 | the owed-announcement invariant holds through every single step: registrations between completions, reuse of an announced id while workflows are unfinished, lost steps and crashes included |
| BatchDirectory.AnnounceExactlyWhenFull | packages/exoclaw-executor-dbos/exoclaw_executor_dbos/batch_store.py:154-185 | the decision step announces exactly when every member file is done and no sentinel stands, and its snapshot then lists all of them in file order |
| BatchDirectory.ReadMembers | packages/exoclaw-executor-dbos/exoclaw_executor_dbos/batch_store.py:146-182 | the loop over the sorted member files counts the files and the finished ones and collects the finished ones' rows in file order, with the default for a missing path |
| FileOrder.ListedIsSorted | packages/exoclaw-executor-dbos/exoclaw_executor_dbos/batch_store.py:147 | the listing holds each member file once, ordered by whole file name |
| FileOrder.BeforeAtFirstDifference | packages/exoclaw-executor-dbos/exoclaw_executor_dbos/batch_store.py:150 | names are compared as Python compares strings: by the first difference, a prefix first |
| BatchDirectory.Workspace.RegisterStep | packages/exoclaw-executor-dbos/exoclaw_executor_dbos/batch_store.py:77-119 | registering clears a stale directory, keeps the first routing and never overwrites a member file |
| BatchDirectory.Workspace.RecordStep | packages/exoclaw-executor-dbos/exoclaw_executor_dbos/batch_store.py:122-185 | recording overwrites one member file and returns the decision on the directory after it, rows in file order |
| BatchDirectory.Workspace.MarkStep | packages/exoclaw-executor-dbos/exoclaw_executor_dbos/batch_store.py:189-196 | marking sets the sentinel on an existing directory and changes nothing else |
| MemoryBatch.AnnouncementsAreFull | packages/exoclaw-subagent/exoclaw_subagent/batch_store.py:167-245 | over every interleaving of lock sections, callbacks, replays, registrations between completions and reuse of the id: total is the registered tasks, completed the distinct completed tasks and the results, every announced snapshot is full, and every earlier run of the id was announced |
| MemoryBatch.AnnouncedOnce | packages/exoclaw-subagent/exoclaw_subagent/batch_store.py:116-138 | a complete batch with no call half way was announced, and exactly once when no completion was replayed |
| MemoryContents.AnnouncementsAreTruthful | packages/exoclaw-subagent/exoclaw_subagent/batch_store.py:167-245 | in every interleaving each announcement goes to the route of the first registration of its run and tells the first completion of every registered task in the order in which they came |
| MemoryBatch.RegistrationIsSafeExactlyWhenUndecided | packages/exoclaw-subagent/exoclaw_subagent/batch_store.py:167-201 | in every reachable un-announced state a new member is safe to register if and only if no call has decided to announce |
| MemoryBatch.LateRegistrationIsSilenced | packages/exoclaw-subagent/exoclaw_subagent/batch_store.py:167-245 | otherwise a continuation completes the batch with no call half way and no announcement of the full batch |
| MemoryBatch.ReuseIsSafeExactlyWhenQuiet | packages/exoclaw-subagent/exoclaw_subagent/batch_store.py:177-245 | in every reachable announced state the id is safe to reuse if and only if no call is still to mark |
| MemoryBatch.StaleMarkSilences | packages/exoclaw-subagent/exoclaw_subagent/batch_store.py:237-245 | otherwise the stale mark lands in the new run, which ends complete and unannounced |
| MemoryBatch.OverlappingCallsAreReached | packages/exoclaw-subagent/exoclaw_subagent/batch_store.py:203-245 | such a state occurs when a completion is reported twice before the first report has announced |
| MemoryBatch.SectionsKeepCounts | packages/exoclaw-subagent/exoclaw_subagent/batch_store.py:167-245 | both lock sections keep the counters exact and are idempotent per task |
| MemoryBatch.RegisteringAgrees | packages/exoclaw-executor-dbos/exoclaw_executor_dbos/batch_store.py:77-119 | registering keeps the in-memory and the durable store describing the same batch |
| MemoryBatch.CompletingAgrees | packages/exoclaw-executor-dbos/exoclaw_executor_dbos/batch_store.py:122-185 | so does completing a registered task |
| MemoryBatch.DecidingAgrees | packages/exoclaw-executor-dbos/exoclaw_executor_dbos/batch_store.py:154-166 | stores in step report the same counts and take the same decision |
| MemoryBatch.InMemoryBatchStore.Register | packages/exoclaw-subagent/exoclaw_subagent/batch_store.py:167-201 | registering one batch id changes that entry as specified and no other |
| MemoryBatch.InMemoryBatchStore.RecordCompletion | packages/exoclaw-subagent/exoclaw_subagent/batch_store.py:203-235 | the first lock section: entry, snapshot and decision, or `KeyError` with nothing changed |
| MemoryBatch.InMemoryBatchStore.MarkAnnounced | packages/exoclaw-subagent/exoclaw_subagent/batch_store.py:237-245 | the second lock section marks the batch and nothing else |
| LayoutSound.LayoutSoundExactlyWhenItFits | packages/exoclaw-screen/exoclaw_screen/layout.py:64-438 | for documents without height attributes, negative gaps or negative widths: blocks within the panel, containers enclosing their subtrees and leaves apart, if and only if in every container the children reach no further than its box |
| LayoutHorizontal.SoundAcrossExactlyWhenItFits | packages/exoclaw-screen/exoclaw_screen/layout.py:64-438 | for documents with any height attributes: blocks across the panel and containers enclosing their subtrees sideways, if and only if in every container the children reach no further than its box |
| LayoutPercent.TameDocumentIsSound | packages/exoclaw-screen/exoclaw_screen/layout.py:269-438 | absent or percentage widths totalling at most 100 per row, with gaps that fit, always give a sound layout |
| LayoutSound.EnclosedFits | packages/exoclaw-screen/exoclaw_screen/layout.py:153-266 | containers enclose their subtrees, even only sideways, only when their children fit |
| LayoutSound.NodeGood | packages/exoclaw-screen/exoclaw_screen/layout.py:96-150 | a fitting subtree lies within the box it is given, encloses and separates as it should |
| LayoutSound.RowGood | packages/exoclaw-screen/exoclaw_screen/layout.py:269-322 | children of a row, cursor and gap moved on, stay apart and within the row |
| LayoutPercent.RowReach | packages/exoclaw-screen/exoclaw_screen/layout.py:269-303 | floor-divided shares and percentages of a row never add up to more than its width |
| LayoutPercent.GridReach | packages/exoclaw-screen/exoclaw_screen/layout.py:382-438 | the cells of a grid row never reach past its width |
| LayoutShares.RowIsUsedUp | packages/exoclaw-screen/exoclaw_screen/layout.py:269-323 | a row gives sized children their sizes and all others one width, and with some of those falls short of the box, gaps included, by less than their number; they get nothing exactly when the sized ones leave nothing |
| LayoutShares.ColumnIsUsedUp | packages/exoclaw-screen/exoclaw_screen/layout.py:325-380 | the same for the heights of a column with a fixed height |
| LayoutShares.GridIsUsedUp | packages/exoclaw-screen/exoclaw_screen/layout.py:409-415 | `cols` cells and their gaps fall short of the box by less than `cols` |
| LayoutShares.SizeIsAsWritten | packages/exoclaw-screen/exoclaw_screen/layout.py:444-471 | pixels are taken as they are, a percentage is rounded down and never negative |
| LayoutShares.RowPlaces | packages/exoclaw-screen/exoclaw_screen/layout.py:299-322 | child `i` of a row stands at the sum of the widths and gaps before it, at the row's top, with its own width |
| LayoutShares.ColumnPlaces | packages/exoclaw-screen/exoclaw_screen/layout.py:359-379 | each child of a column stands a gap below the end of the one before, with its own width or the whole, and with the height the column fixes for it |
| LayoutShares.GridPlaces | packages/exoclaw-screen/exoclaw_screen/layout.py:416-441 | child `i` of a grid stands in column `i % cols` of row `i / cols`, a cell and a gap apart |
| LayoutShares.RowIsAsHigh | packages/exoclaw-screen/exoclaw_screen/layout.py:421-440 | a grid row is as high as its highest child |
| LayoutShares.RowIsAsHighAsItsChildren | packages/exoclaw-screen/exoclaw_screen/layout.py:300-322 | a row without a height of its own is as high as its highest child |
| LayoutShares.ColumnEnds | packages/exoclaw-screen/exoclaw_screen/layout.py:359-379 | a column ends where its last child ends |
| LayoutShares.GridEnds | packages/exoclaw-screen/exoclaw_screen/layout.py:416-441 | a grid ends where its last row ends |
| LayoutShares.DocumentPlaces | packages/exoclaw-screen/exoclaw_screen/layout.py:64-93 | the nodes of a document stand four pixels apart under each other |
| LayoutShares.ContainerHeight | packages/exoclaw-screen/exoclaw_screen/layout.py:176-266 | a container is as high as it is told, or as its children if it is told nothing or zero |
| LayoutShares.EstimatesCountRows | packages/exoclaw-screen/exoclaw_screen/layout.py:489-520 | estimated heights in rows of text: one more for each line, item or heading rank |
| LayoutShares.ImagesAreAsHighAsTheySay | packages/exoclaw-screen/exoclaw_screen/layout.py:494-506 | an image alone in its paragraph is as high as its `h`, else its `height`, says, at least a pixel, else one row |
| LayoutEngine.Engine.LayOut | packages/exoclaw-screen/exoclaw_screen/layout.py:64-93 | laying out a document appends exactly the specified blocks |
| LayoutEngine.Engine.LayOutNode | packages/exoclaw-screen/exoclaw_screen/layout.py:96-150 | one node: the blocks appended and the height consumed |
| LayoutEngine.Engine.LayOutContainer | packages/exoclaw-screen/exoclaw_screen/layout.py:153-266 | a container: its own block first, its late-set height, its children's blocks |
| LayoutEngine.Engine.LayOutRow | packages/exoclaw-screen/exoclaw_screen/layout.py:269-322 | a row: explicit and shared widths, cursor, tallest child, fixed height |
| LayoutEngine.Engine.LayOutCol | packages/exoclaw-screen/exoclaw_screen/layout.py:325-379 | a column: explicit and shared heights, cursor, trailing gap removed |
| LayoutEngine.Engine.LayOutGrid | packages/exoclaw-screen/exoclaw_screen/layout.py:382-438 | a grid: rows of cells, each as tall as its tallest cell |
| ConsolidationRuns.NothingButToolResultsIsSkipped | packages/exoclaw-conversation/exoclaw_conversation/summarizing_policy.py:132-213 | over every run: each message that is not a tool result is in exactly one chunk handed to the summariser or is the emitted view's item at its own place behind the preamble, never both, and the summary holds every non-blank entry in order |
| ConsolidationRuns.TailIsClosed | packages/exoclaw-conversation/exoclaw_conversation/summarizing_policy.py:99-130 | for every tool result in the tail, the message that made the call is in the tail, and its item in the emitted view stands in front of the result's |
| ConsolidationRuns.ViewShowsTheTail | packages/exoclaw-conversation/exoclaw_conversation/summarizing_policy.py:97-130 | the view starts with the text of the summary exactly when there is one, and then has one item for each log message from the boundary on |
| ConsolidationRuns.ConsolidationTakesAWindow | packages/exoclaw-conversation/exoclaw_conversation/summarizing_policy.py:170-213 | one consolidation hands the summariser a full window from the boundary on, or all there is |
| ConsolidationRuns.BoundaryIsMonotone | packages/exoclaw-conversation/exoclaw_conversation/summarizing_policy.py:170-213 | `summarized_through` never moves back and never passes the end of the log |
| ConsolidationRuns.EveryMessageKeptExactlyWhenUnrepaired | packages/exoclaw-conversation/exoclaw_conversation/summarizing_policy.py:183-203 | for any log: chunk and new tail are the old tail if and only if the boundary needed no repair |
| ConsolidationRuns.SkippedResultExample | packages/exoclaw-conversation/exoclaw_conversation/summarizing_policy.py:183-203 | a boundary that splits a call from its two results loses the second one from both summary and tail |
| ConsolidationRuns.RepairEndsGroup | packages/exoclaw-conversation/exoclaw_conversation/summarizing_policy.py:215-246 | the repaired boundary ends a tool group and steps over tool results only |
| ConsolidationRuns.ResultHasCaller | packages/exoclaw-conversation/exoclaw_conversation/summarizing_policy.py:215-246 | in an orderly log every tool result follows a message that called for it with only tool results between |
| Consolidation.RollingKeepsEveryEntry | packages/exoclaw-conversation/exoclaw_conversation/summarizing_policy.py:255-263 | merging entries over a whole run loses and reorders nothing that is not blank |
| Consolidation.Policy.RepairBoundary | packages/exoclaw-conversation/exoclaw_conversation/summarizing_policy.py:215-246 | the boundary loop equals its specification and stays within the log |
| Consolidation.Policy.SummarizeOneChunk | packages/exoclaw-conversation/exoclaw_conversation/summarizing_policy.py:170-213 | one chunk: new boundary, merged summary, and whether anything advanced |
| Consolidation.Policy.OnTurnComplete | packages/exoclaw-conversation/exoclaw_conversation/summarizing_policy.py:132-144 | consolidates one chunk exactly when the tail has reached the window |
| Consolidation.Policy.RecoverFromOverflow | packages/exoclaw-conversation/exoclaw_conversation/summarizing_policy.py:146-168 | always tries one chunk and reports whether it advanced |
| Consolidation.Policy.RecoverUntilDone | packages/exoclaw-conversation/exoclaw_conversation/summarizing_policy.py:146-168 | repeated recovery with a working summariser ends, with an empty tail |
| Consolidation.Policy.Transform | packages/exoclaw-conversation/exoclaw_conversation/summarizing_policy.py:99-130 | the view is the summary preamble, if any, and the log from the boundary on |
| Compaction.CompactToolResults | packages/exoclaw-conversation/exoclaw_conversation/context.py:74-114 | the result clears the least oldest-first number of eligible results that fits the budget, or all of them |
| Compaction.TruncateOldestToolResults | packages/exoclaw-conversation/exoclaw_conversation/context.py:148-192 | the same with no protected tail and a given placeholder, with the number of cleared results |
| Compaction.EachClearingSaves | packages/exoclaw-conversation/exoclaw_conversation/context.py:94-112 | each replacement lowers the floor-divided estimate, by at least 17 in a compaction |
| Compaction.FewClearings | packages/exoclaw-conversation/exoclaw_conversation/context.py:99-112 | a compaction never clears more results than the excess over the budget explains |
| Compaction.OnlyOldResultsChange | packages/exoclaw-conversation/exoclaw_conversation/context.py:85-112 | only eligible messages change, only their content; the last four non-system messages never do |
| Compaction.CompactionTargets | packages/exoclaw-conversation/exoclaw_conversation/context.py:74-114 | cleared are the tool results of more than a hundred characters, not cleared before, with at least four later messages that are not system messages |
| Compaction.TruncationTargets | packages/exoclaw-conversation/exoclaw_conversation/context.py:148-192 | every tool result of more than a hundred characters that is not cleared yet |
| Compaction.SecondPassClearsNothing | packages/exoclaw-conversation/exoclaw_conversation/context.py:163-165 | a second pass with the same budget changes nothing, so zero means that recovery is exhausted |
| Compaction.LastFourAreProtected | packages/exoclaw-conversation/exoclaw_conversation/context.py:85-87 | slicing the non-system positions keeps exactly those with fewer than four non-system messages after them |
| Compaction.ProtectedIndices | packages/exoclaw-conversation/exoclaw_conversation/context.py:85-87 | the set of protected positions |
| History.EstimateTokens | packages/exoclaw-conversation/exoclaw_conversation/context.py:54-71 | the total of content and call-argument lengths divided by three |
| History.EstimateCountsEverything | packages/exoclaw-conversation/exoclaw_conversation/context.py:54-71 | one token for every three characters of all contents, parts and call arguments, rounded down |
| Pairing.HalvingKeepsPairing | packages/exoclaw-conversation/exoclaw_conversation/context.py:117-145 | for every history whose calls are answered: after dropping the oldest half no result lacks an earlier call, no call lacks a later result, system messages are kept and nothing is reordered |
| Pairing.PairedResults | packages/exoclaw-conversation/exoclaw_conversation/context.py:129-143 | what pairing means one way: in front of every tool result stands an assistant message that makes its call |
| Pairing.PairedCalls | packages/exoclaw-conversation/exoclaw_conversation/context.py:129-143 | and the other way: behind every assistant message each of its calls has a tool result |
| Pairing.HalvingKeepsTheLaterHalf | packages/exoclaw-conversation/exoclaw_conversation/context.py:117-145 | of the later half of the conversation, rounded up, everything but results without their call is kept, in place behind all system messages |
| Pairing.RepairKeepsTheRest | packages/exoclaw-conversation/exoclaw_conversation/context.py:270-292 | repair keeps exactly the messages that are no orphaned results, each behind the kept ones before it |
| Pairing.PartsAreEverything | packages/exoclaw-conversation/exoclaw_conversation/context.py:222-224 | system messages and conversation are the whole history, each in its order |
| Pairing.SummarizingKeepsPairing | packages/exoclaw-conversation/exoclaw_conversation/context.py:271-292 | the same after replacing the oldest messages by a summary, which comes first after the system messages |
| Pairing.SummarizingKeepsTheRest | packages/exoclaw-conversation/exoclaw_conversation/context.py:264-292 | system messages, the summary, then every message outside the chunk that keeps its call, in place |
| Pairing.ChunkStopsAtTheRecent | packages/exoclaw-conversation/exoclaw_conversation/context.py:229-262 | the chunk leaves the recent messages alone, fits a positive cap, and stops only at the cap or at the recent messages |
| Pairing.RepairLooksFarEnough | packages/exoclaw-conversation/exoclaw_conversation/context.py:128-143 | looking for a parent among the messages kept so far is as good as looking among all earlier ones |
| Pairing.RepairPairs | packages/exoclaw-conversation/exoclaw_conversation/context.py:128-143 | the repaired list always has calls for its results, keeps the results of its calls, and is an in-order subsequence |
| Pairing.Repair | packages/exoclaw-conversation/exoclaw_conversation/context.py:128-143 | the repair loop keeps a message exactly when it is no tool result or some earlier message made its call |
| Pairing.DropOldestHalf | packages/exoclaw-conversation/exoclaw_conversation/context.py:117-145 | system messages, then the repaired later half |
| Pairing.SummarizeOldChunks | packages/exoclaw-conversation/exoclaw_conversation/context.py:195-292 | it summarises if and only if the list is over target with more than `keep_recent` messages, the longest oldest prefix within the cap is not empty, and its summary is not empty; then that prefix is replaced and the list repaired, otherwise nothing changes |
| Pairing.TakeChunk | packages/exoclaw-conversation/exoclaw_conversation/context.py:245-262 | the greedy loop takes the longest oldest prefix whose estimate is within the cap |
| Pairing.ChunkIsGreatest | packages/exoclaw-conversation/exoclaw_conversation/context.py:245-255 | no longer prefix would have fitted |
| CronRuns.EveryOccurrenceOnce | packages/exoclaw-tools-cron/exoclaw_tools_cron/service.py:385-491 | over every run of ticks and flushes: immediate calls are the immediate occurrences in order, flush calls followed by the queue are the deferred occurrences in order, and occurrences of one job are an interval apart (a one-shot job has at most one) |
| CronRuns.FlushCallsAllDeferred | packages/exoclaw-tools-cron/exoclaw_tools_cron/service.py:445-491 | a flush empties the queue, and then every deferred occurrence so far has been called once |
| CronRuns.RestartLosesExactlyTheQueue | packages/exoclaw-tools-cron/exoclaw_tools_cron/service.py:284-347 | the deferred occurrences of a process are those its flushes called and then those in the queue, which a restart drops; every job is kept and keeps its distance from its earlier occurrences, and an enabled one-shot job is armed again if and only if its time is still ahead |
| CronRuns.QueuedOneShotIsLost | packages/exoclaw-tools-cron/exoclaw_tools_cron/service.py:421-443 | a one-shot job in the queue at a restart never comes due again and is never called, in any run of the new process |
| CronRuns.TickLeavesNothingDue | packages/exoclaw-tools-cron/exoclaw_tools_cron/service.py:385-419 | after a tick nothing is due at the tick's own time, and the service stays consistent |
| CronRuns.TickHandles | packages/exoclaw-tools-cron/exoclaw_tools_cron/service.py:385-443 | every due job is called or queued once, in list order; no other job changes; a handled job has moved past its time, and a one-shot job is disabled or gone |
| CronRuns.WakeIsFirstDue | packages/exoclaw-tools-cron/exoclaw_tools_cron/service.py:349-356 | at the time the timer is armed for something is due, and before it nothing is |
| CronRuns.DueAfterInterval | packages/exoclaw-tools-cron/exoclaw_tools_cron/service.py:67-99 | a job that is due again has waited its interval |
| CronLiveness.RepeatingJobsStayArmed | packages/exoclaw-tools-cron/exoclaw_tools_cron/service.py:284-491 | in every state a started service reaches, every enabled job that repeats, by a positive interval or by an expression the library answers, has a next run, and the timer is armed for no later than that |
| CronLiveness.TickFindsIt | packages/exoclaw-tools-cron/exoclaw_tools_cron/service.py:405-412 | a tick at or after the next run of an armed listed job finds it due |
| CronLiveness.StartSchedules | packages/exoclaw-tools-cron/exoclaw_tools_cron/service.py:340-347 | start gives every enabled listed job its next run from the one clock reading it makes |
| CronLiveness.TickSchedules | packages/exoclaw-tools-cron/exoclaw_tools_cron/service.py:385-443 | a tick gives every due repeating job its next run from one of its own clock readings |
| CronLiveness.ScheduledWithinTheStep | packages/exoclaw-tools-cron/exoclaw_tools_cron/service.py:67-77 | so the next run of an interval job lies one interval after the first and the last reading of the step, or between |
| CronLiveness.HandleSchedules | packages/exoclaw-tools-cron/exoclaw_tools_cron/service.py:421-522 | one job handled: a call or a queue entry, the time and outcome recorded, removed only if it is a one-shot to be deleted that ran at once |
| CronLiveness.FlushRecords | packages/exoclaw-tools-cron/exoclaw_tools_cron/service.py:467-489 | one queued job flushed: one call, time and outcome recorded, schedule kept, removed only if it is a one-shot to be deleted |
| Cron.CronService.OnTimer | packages/exoclaw-tools-cron/exoclaw_tools_cron/service.py:358-419 | one tick loads, taking over a file edited outside, handles the jobs that were due when it began, in order, leaves the file equal to the jobs, and sleeps until the earliest next run |
| Cron.CronService.DeferJob | packages/exoclaw-tools-cron/exoclaw_tools_cron/service.py:421-443 | queues the job and advances its schedule as if it had run |
| Cron.CronService.ExecuteJob | packages/exoclaw-tools-cron/exoclaw_tools_cron/service.py:493-522 | calls the job once, records the outcome, and removes, disables or reschedules it |
| Cron.CronService.Flush | packages/exoclaw-tools-cron/exoclaw_tools_cron/service.py:445-491 | loads, taking over a file edited outside, clears the queue before calling every queued job once, and leaves the file equal to the jobs; with an empty queue nothing is touched, not even an edited file |
| Cron.CronService.LoadStore | packages/exoclaw-tools-cron/exoclaw_tools_cron/service.py:160-226 | an unedited file is not read again; one with another time replaces the job list and its jobs |
| Cron.CronService.Start | packages/exoclaw-tools-cron/exoclaw_tools_cron/service.py:284-305 | start loads, schedules every enabled job afresh, leaves the file equal to the jobs |
| Cron.CronService.RecomputeNextRuns | packages/exoclaw-tools-cron/exoclaw_tools_cron/service.py:340-347 | every enabled listed job gets the next run after one reading of the clock, all others stay |
| Cron.CronService.SaveStore | packages/exoclaw-tools-cron/exoclaw_tools_cron/service.py:228-282 | the file holds every listed job in order and counts as this service's own |
| Cron.CronService.ArmTimer | packages/exoclaw-tools-cron/exoclaw_tools_cron/service.py:358-374 | the delay is the time left to the earliest next run, never negative, or there is no timer |
| Cron.SavedStoreReloads | packages/exoclaw-tools-cron/exoclaw_tools_cron/service.py:160-282 | loading what was saved gives back the job list and every listed job |
| MailboxRuns.MailboxKeepsOrder | packages/exoclaw-executor-dbos/exoclaw_executor_dbos/steering.py:60-102 | over every run of appends of any contents, drain steps, exceptions and crashes: the texts delivered are those of appended records, in append order, none twice; delivered, pending and filed records are everything appended if and only if no drain crashed or raised after unlinking whole records and no file unlinked held a cut one |
| MailboxRuns.EverythingArrives | packages/exoclaw-executor-dbos/exoclaw_executor_dbos/steering.py:60-102 | for contents without U+0085, U+2028 and U+2029: when every crash spared the drains and no file is left, the results are the appended texts in order |
| MailboxRuns.EverythingArrivesExactlyWhenSpared | packages/exoclaw-executor-dbos/exoclaw_executor_dbos/steering.py:60-102 | for any contents: with no drain under way and no file left, the results are the appended texts in order if and only if every step was sparing |
| MailboxRuns.WholeContentsAreLostOnlyByCrashes | packages/exoclaw-executor-dbos/exoclaw_executor_dbos/steering.py:60-102 | for contents without those characters nothing is lost if and only if no crash fell between removing a file that held records and the drain's return |
| MailboxRuns.PoisonStopsTheMailbox | packages/exoclaw-executor-dbos/exoclaw_executor_dbos/steering.py:84-96 | once a content has been appended of which some piece between two separators is JSON but no object, no drain ever reaches its return again and nothing more is delivered |
| MailboxRuns.OneNumberStopsTheMailbox | packages/exoclaw-executor-dbos/exoclaw_executor_dbos/steering.py:84-96 | a number between two U+2028 is such a content |
| MailboxRuns.DrainTakesAll | packages/exoclaw-executor-dbos/exoclaw_executor_dbos/steering.py:69-102 | an uninterrupted drain of files without such a content, also after a crashed one, delivers the whole contents of the older file and then of the newer and leaves no file |
| MailboxRuns.StepKeeps | packages/exoclaw-executor-dbos/exoclaw_executor_dbos/steering.py:60-102 | each record stays in exactly one place and in order through every step, exception and crash, and the texts held are those of the records they stand for |
| MailboxLines.LinesAreRecordsExactlyWhen | packages/exoclaw-executor-dbos/exoclaw_executor_dbos/steering.py:41-43 | a mailbox file splits into the records written if and only if no content holds U+0085, U+2028 or U+2029 |
| MailboxLines.SeparatorCutsRecord | packages/exoclaw-executor-dbos/exoclaw_executor_dbos/steering.py:84-86 | a content with one such character is read as two lines, neither of them its record |
| MailboxLines.FileIsCut | packages/exoclaw-executor-dbos/exoclaw_executor_dbos/steering.py:84-86 | every file of records, whole or not, splits into the pieces of its records one after another |
| MailboxReading.FileReads | packages/exoclaw-executor-dbos/exoclaw_executor_dbos/steering.py:84-96 | a file reads as its whole records' contents in order, or raises exactly when some content has a piece between two separators that is JSON, with `NaN`, `Infinity` and `-Infinity`, but no object |
| MailboxReading.AllReadBackExactlyWhenWhole | packages/exoclaw-executor-dbos/exoclaw_executor_dbos/steering.py:84-96 | every content is read back if and only if all of them are without those characters |
| MailboxReading.RecordYields | packages/exoclaw-executor-dbos/exoclaw_executor_dbos/steering.py:84-96 | a whole record yields its content; a cut one raises exactly when some piece strictly between two separators is JSON but no object, and yields nothing otherwise |
| MailboxReading.PieceIsNoRecord | packages/exoclaw-executor-dbos/exoclaw_executor_dbos/steering.py:89-96 | no piece of a cut record is read as a content |
| MailboxReading.NumberLinePoisons | packages/exoclaw-executor-dbos/exoclaw_executor_dbos/steering.py:89-94 | a number on a line of its own is JSON without `get`, and raises |
| MailboxReading.NaNLinePoisons | packages/exoclaw-executor-dbos/exoclaw_executor_dbos/steering.py:89-94 | so does `NaN`, which RFC 8259 does not admit and `json.loads` does |
| MailboxReading.LinePoisons | packages/exoclaw-executor-dbos/exoclaw_executor_dbos/steering.py:84-94 | a text between two U+2028 makes the drain raise if and only if its escaped form is JSON but no object |
| JsonEnds.OnlyObjectsEndInBrace | packages/exoclaw-executor-dbos/exoclaw_executor_dbos/steering.py:89-94 | a JSON text whose last character is a closing brace is an object, so the last piece of a cut record never raises |
| Mailbox.SteeringInbox.DrainMessages | packages/exoclaw-executor-dbos/exoclaw_executor_dbos/steering.py:60-102 | a drain returns the whole contents of the older file and then of the newer and removes both, unless a content has such a piece; then the files not yet removed stay |
| Mailbox.SteeringInbox.AppendMessage | packages/exoclaw-executor-dbos/exoclaw_executor_dbos/steering.py:41-57 | the write loop appends one whole record whatever the partial writes |
| Mailbox.SteeringInbox.LoadLines | packages/exoclaw-executor-dbos/exoclaw_executor_dbos/steering.py:89-96 | the texts of the lines in order, or nothing as soon as one raises |
| MailboxReading.RecordLoads | packages/exoclaw-executor-dbos/exoclaw_executor_dbos/steering.py:89-96 | the record of a content reads back as that content |
| Base64.StreamedIsOneShot | packages/exoclaw-tools-voice/exoclaw_tools_voice/b64.py:37-82 | for every byte sequence and chunking, empty and one-byte chunks included, the outputs and the flush are the one-shot encoding of section 4 of RFC 4648, defined on the bit string |
| Base64.DecodesExactlyItsEncoding | packages/exoclaw-tools-voice/exoclaw_tools_voice/b64.py:51-82 | a text decodes to given bytes if and only if it is their encoding |
| Base64.EncodingOfGroup | packages/exoclaw-tools-voice/exoclaw_tools_voice/b64.py:71-82 | the shifts and masks of one group spell the 24 bits in four sextets |
| Base64.EncodingOfRemainder | packages/exoclaw-tools-voice/exoclaw_tools_voice/b64.py:51-69 | the flush spells the remaining one or two bytes with zero bits and padding |
| Base64.ValueOfDigit | packages/exoclaw-tools-voice/exoclaw_tools_voice/b64.py:25 | the alphabet inverts Table 1 of RFC 4648 |
| Base64.B64StreamEncoder.Encode | packages/exoclaw-tools-voice/exoclaw_tools_voice/b64.py:37-49 | emits every whole group of carry and chunk and keeps the rest |
| Base64.B64StreamEncoder.Flush | packages/exoclaw-tools-voice/exoclaw_tools_voice/b64.py:51-69 | emits the padded last group and clears the carry |
| Base64.B64StreamEncoder.EncodeFull | packages/exoclaw-tools-voice/exoclaw_tools_voice/b64.py:71-82 | four characters for every three bytes |
| AudioBody.ReadBody | packages/exoclaw-tools-voice/exoclaw_tools_voice/streaming.py:92-138 | iterating the body ends, yields no empty piece, and concatenates to head, prefix, one-shot base64 of all audio, and tail |
| AudioRequest.AudioBodyReads | packages/exoclaw-tools-voice/exoclaw_tools_voice/streaming.py:92-142 | the streamed body is one JSON text: the members of the head, then one user message with the text and the audio in its format as base64 |
| AudioBody.AudioBodyIter.Next | packages/exoclaw-tools-voice/exoclaw_tools_voice/streaming.py:92-138 | a non-empty piece that, put before what then remains, is what remained before; the end exactly when the body is done |
| AudioBody.AudioBodyIter.NextAudio | packages/exoclaw-tools-voice/exoclaw_tools_voice/streaming.py:113-126 | pulls chunks until one fills a group, and goes on to the flush when the audio is over |
| JsonBody.BodyReads | packages/exoclaw-provider-openai/exoclaw_provider_openai/provider.py:738-778 | the streamed body is one JSON text that reads as the head's members and then `messages`, one object for each message in order |
| JsonBody.SentSays | packages/exoclaw-provider-openai/exoclaw_provider_openai/provider.py:655-735 | what the server reads in a message, key by key: nothing with an underscore, every other member as it was, and for a message with a file the file's text as content |
| JsonBody.WireReads | packages/exoclaw-provider-openai/exoclaw_provider_openai/provider.py:655-735 | each message reads as its public members, a file-backed content as the file's text whatever the read chunks |
| JsonBody.PreviewAloneExactlyWhenNothingRead | packages/exoclaw-provider-openai/exoclaw_provider_openai/provider.py:718-733 | after a read error the content sent is the preview alone if and only if nothing had been read |
| JsonBody.PartialReadExample | packages/exoclaw-provider-openai/exoclaw_provider_openai/provider.py:718-733 | a read that fails after one chunk sends that chunk in front of the preview |
| JsonBody.EmitMessage | packages/exoclaw-provider-openai/exoclaw_provider_openai/provider.py:655-735 | the pieces of one message concatenate to its wire text, for every cut of the scratch file, with the inline preview after a read error |
| JsonBody.StreamBody | packages/exoclaw-provider-openai/exoclaw_provider_openai/provider.py:738-778 | the pieces of the request concatenate to its wire text |
| JsonBody.SplicedReads | packages/exoclaw-provider-openai/exoclaw_provider_openai/provider.py:686-693 | a member spliced in front of the closing brace reads as the object's last member, also into an empty object |
| Json.ValueBack | packages/exoclaw-provider-openai/exoclaw_provider_openai/provider.py:677-678 | every JSON value comes back from its dumped text, whatever follows it |
| Json.NumberBack | packages/exoclaw-provider-openai/exoclaw_provider_openai/provider.py:677-678 | a number of the grammar of section 6 of RFC 8259 is read whole, whatever follows it that does not continue a number |
| JsonString.StringBack | packages/exoclaw-provider-openai/exoclaw_provider_openai/provider.py:714-717 | every string comes back from its escaped form by section 7 of RFC 8259, surrogate pairs included |
| JsonString.EscapeJoins | packages/exoclaw-provider-openai/exoclaw_provider_openai/provider.py:714-717 | escaping does not see where a text is cut |
| JsonString.EscapedIsPrintable | packages/exoclaw-provider-openai/exoclaw_provider_openai/provider.py:714-717 | the escaped form is printable ASCII, so encoding it to bytes is the identity |
| JsonString.ShortEscapes | packages/exoclaw-provider-openai/exoclaw_provider_openai/provider.py:714-717 | quotes, backslashes and the five control characters with a letter are written with two characters |
| LoopDetection.WindowSeesAllExactlyWhenLarge | packages/exoclaw-loop-detection/exoclaw_loop_detection/policy.py:44-98 | the truncated history answers like the whole trace since the last reset, on every trace, if and only if the window holds enough calls for the enabled patterns |
| LoopDetection.LoopDetectionPolicy.ShouldContinue | packages/exoclaw-loop-detection/exoclaw_loop_detection/policy.py:56-98 | the answer for the remembered calls, and for the whole trace when the window is large enough |
| LoopDetection.ThresholdCountsCalls | packages/exoclaw-loop-detection/exoclaw_loop_detection/policy.py:80-96 | the ping-pong check asks for half as many documented cycles as the threshold, rounded up, and for four calls in all |
| LoopDetection.StopsAtHalfTheCycles | packages/exoclaw-loop-detection/exoclaw_loop_detection/policy.py:80-96 | an unbroken ping-pong of `c` cycles is stopped if and only if `c` is at least half the threshold, rounded up, and at least two |
| LoopDetection.NoThresholdIsDocumented | packages/exoclaw-loop-detection/exoclaw_loop_detection/policy.py:27-28 | for every threshold from one on some trace is judged otherwise than documented |
| LoopDetection.LoopDetectionPolicy.Reset | packages/exoclaw-loop-detection/exoclaw_loop_detection/policy.py:50-52 | the trace starts again with nothing remembered |
| LoopDetection.LoopDetectionPolicy.Record | packages/exoclaw-loop-detection/exoclaw_loop_detection/policy.py:44-48 | the history stays what the window keeps of the trace |
| LoopDetection.HasStreak | packages/exoclaw-loop-detection/exoclaw_loop_detection/policy.py:69-78 | the streak loop decides whether the last calls are all alike |
| LoopDetection.HasCycles | packages/exoclaw-loop-detection/exoclaw_loop_detection/policy.py:80-96 | the cycle loop decides whether two calls take turns to the end |
| LoopDetection.StreakStopsExactlyAtTheThreshold | packages/exoclaw-loop-detection/exoclaw_loop_detection/policy.py:56-98 | a call repeated `n` times stops the run exactly from the threshold on |
| LoopDetection.PingPongStopsExactlyAtTheThreshold | packages/exoclaw-loop-detection/exoclaw_loop_detection/policy.py:56-98 | two calls taking turns stop the run exactly from the threshold on, in calls |
| LoopDetection.BreakerIsExact | packages/exoclaw-loop-detection/exoclaw_loop_detection/policy.py:56-62 | the circuit breaker stops from its iteration on, and nothing else does without patterns to look for |

## Left out

- Tokenizer: names and lower-casing are ASCII and length-preserving; lone surrogates from numeric references, Unicode digits in `int()`, and the branch where `_consume_start_tag` returns nothing, which cannot be reached, are left out.
- CPython's decoder: on CPython the converter uses `html.unescape`, which also decodes references without `;`. That path is not covered: the theorems hold for the in-file decoder, which other runtimes use, with any table of references in it.
- Rendered Markdown: chunk invariance is stated on tokens with adjacent text merged, since `_escape_md` escapes per text node; the remaining tag rules, white-space collapsing and the element tree have no simple specification to prove against.
- Batch stores: sanitised task names are taken to be distinct and different from `meta`; unreadable JSON, `list_active`, fsync and the DBOS runtime are not modelled. A callback that raises is not among the events: with it a finished workflow or call can owe an announcement that nobody makes. A stale announcement of an earlier run is counted there only.
- BatchProtocol.StepKeeps: a registration is one step; a crash inside the `rmtree` of a reused id that removes the sentinel before the old member files would leave stale completions behind (batch_store.py:98-100), and is not among the steps.
- LayoutSound.LayoutSoundExactlyWhenItFits: says nothing of documents with height attributes, negative gaps or negative pixel widths, where the code lets blocks overflow downwards by design; `LayoutHorizontal.SoundAcrossExactlyWhenItFits` covers the horizontal half with heights, and `LayoutEngine.Engine` models them.
- Layout: size attributes are taken as parsed, a malformed one as absent; block payloads and attribute dictionaries are not modelled.
- Consolidation: consolidations of one session are serialised and start on complete tool groups; the sidecar file, its migration, logging and concurrency are left out, and the summariser is an arbitrary function that may fail.
- ConsolidationRuns.NothingButToolResultsIsSkipped: full conservation is false of the code, as `ConsolidationRuns.SkippedResultExample` shows; the exact condition is `ConsolidationRuns.EveryMessageKeptExactlyWhenUnrepaired`.
- Compaction: the budget is a parameter; the float multiplication by `headroom` is not modelled. Tool calls that are not dictionaries, which the code skips, are left out of the message type.
- Pairing.SummarizeOldChunks: the summariser is an arbitrary function of the chunk; that repeated calls make progress is not claimed, since a cap that holds one message only makes it summarise its own summary.
- Cron: manual runs and edits, `stop`, asyncio, status texts and `updated_at_ms` are left out. A restart comes between two steps, never in the middle of one. The clock never runs backwards, callbacks do not mutate the store, and the cron-expression library is an oracle that answers with a later time.
- Cron.CronService.Flush: job objects are rows of a table keyed by id, so after an outside edit the queue sees the reloaded jobs where the code still holds the old objects.
- Mailbox.SteeringInbox: file locks, fsync, UTF-8 bytes, missing-file races and crashes inside an append are left out. Appends are atomic against drains, as the process-wide lock makes them.
- Mailbox reading: the interpreter's own limits on nesting depth and on the digits of an integer, at which `json.loads` raises something else, are not modelled. Lone surrogate escapes cannot arise in a piece: its quotes and backslashes are escaped.
- AudioBody: the audio source is the list of its chunks; numbers in the head are their text.
- JsonBody: numbers are kept as their text, in the grammar of RFC 8259; `NaN`, lone surrogates and a `_content_file` value that is neither text nor falsy are not modelled. Pieces are characters; `JsonString.EscapedIsPrintable` shows why strings need no further encoding.
- LoopDetection: a fingerprint stands for the canonical JSON of the arguments; the message of `on_limit_reached` is left out.
- Screen parser, channels, GitHub, MCP, web-search and `exec` tools, skills loading, the codemod and the load-test scripts: plumbing, or code with no specification to prove against.
