# A verified model of the memory, prompt and terminal core

The program keeps a private chat history in a segmented append-only log and a separate long-term
document, builds prompts in which every stretch of text has a source, and edits input on a raw
terminal. This project models those cores in Dafny and proves what they promise.

- **Crash-consistent turns.** `Storage` is the disk as one value and as a mutable object: every
  `atomic_write` and every `unlink` is one step, and the process may die before any of them.
  `RawArchive`, `LongTerm`, `Transaction`, `Controller`, `Reset` and `Session` hold the classes of
  the program. Each method is proved to perform a trace (the successive disks and the result) or the
  prefix of it that the process survived. `Safety`, `Turns` and `Session` prove an invariant of
  every step of every run; `Recovery`, `Atomicity`, `Resumed`, `Edits`, `EditedRuns`, `Limits`,
  `AfterReset` and `Witnesses` prove where crashes, start-ups, hand edits and resets lead;
  `TurnEffects`, `StartUps` and `HandEdits` what is on the disk then, in the terms of the user.
- **Curation and documents.** `SupersedesGraph`, `Models`, `Curation`, `Coherence`, `Proposals` and
  `Coverage`: carving whole turns off the log, merging them, and the independent validators.
- **Provenance.** `Boundaries`, `Temporal`, `Assembly`, `ToolHistory` and `CurationPrompt` build the
  prompts, `Provenance` checks them, `Pipeline` and `Attribution` prove that what is built is
  accepted and that acceptance gives every character one source; `PromptContents`,
  `ToolContents` and `CurationContents` say what is in a prompt, `Selection` is the memory budget.
- **The terminal.** `Utf8Decoding`, `KeyDecoder`, `LineEditor`, `TtyInput` and `Keystrokes`, against a small
  terminal with deferred wrap (sections 8.3.15, 8.3.22 and 8.3.39 of ECMA-48). `Folds` runs a step
  over a list.
- **Protocols.** `Gateway` (approve, send, retry), `ToolExecutor` (prepare, execute, commit, undo)
  and `MemorySource` (cursors and pages).

Texts are `string`, digests and derived ids carry what they are derived from, so that they are
injective, and the sizes of serialized records and documents and the verdict of the credential
guard are unknown total functions of the configuration. `Settings` holds them with the limits.

## Findings

Where the code does not meet a property it is stated for, the exact condition is proved.

- **Torn document.** `commit` writes the document and then its copy (long_term.py:241 and 244). A
  crash between the two, when the memories changed, is refused by every later load
  (long_term.py:186-188), so no start-up completes: `Recovery.Restart` and `Recovery.Converges` give
  the condition, `Witnesses.TornRun` a run.
- **Limits that come too late.** `ready` and `pending` check neither a size nor a bare text, and the
  guard reads a journal in which texts are escaped (transaction.py:66-75). `append` checks the
  records (archive.py:85-101), and the document's `commit` the target: its texts, its overview and
  its size (long_term.py:87-88, 215-232). A decision that one of them refuses is never finished and
  never dropped: `Limits.StartsIffPublishable`, `Limits.NeverDone`, `Witnesses.OversizedAnswerRun`,
  `Witnesses.EscapedSecretRun` and `Witnesses.OversizedTargetRun`.
- **Item limit.** `commit` does not count the memories, `load` does: `Limits.CommittedLoads`. A turn
  over the limit ends without an error, and from its first document write on no start-up completes:
  `Recovery.Restart`, `Witnesses.OverfullTurn` and `Witnesses.OverfullRun`.
- **The journal outlives a full reset** (reset.py:74-99). An open decision then either stops every
  start-up or publishes its turn again: `AfterReset.ResetThenStart`, `Witnesses.ResetRun`.
- **A resumed turn has no journal**, so its new document may stand without its answer:
  `Resumed.ResumedOutcome`.
- **Attribution goes by the spelling of a pointer, and whole-content parts are not compared**
  (provenance.py:48-60): `Attribution.EachCharOnceIff`, `Attribution.WholesRepeat`,
  `Attribution.SpellingsRepeat`. The prompts the program builds are not affected
  (`Attribution.AssembledOnce`, `CurationPrompt.CurationIsAccepted`).
- **Coverage accepts a covered record that is also the current input**, and so represents it twice:
  `Coverage.AcceptedMeansExactlyOnce`, `Coverage.CoveredCurrentIsDoubled`. The controller never
  splits like that (`Coverage.ControllerSplitAccepted`).
- **A wrong approval token and a cancellation are thrown over the text they were shown**
  (gateway.py:124-144): the screen is not cleared then, and `Gateway.HeldIff` says that a call leaves
  a text there in no other way.
- **Malformed UTF-8 before a control character ends the input loop.** Outside a paste,
  `unicodedata.category` is asked about several characters (tty_input.py:294) and raises; the rest of
  the chunk waits for the next one, so that it matters where the stream was cut:
  `TtyInput.CutShortIff`, `TtyInput.CutAgreesIff` and `TtyInput.LatinLetter`. A line with an entry of
  several characters cannot be erased (tty_input.py:312-319): `LineEditor.TtyLineEditor.Backspace`.
- **Control sequences of 66 bytes or more depend on how they arrive** (tty_input.py:236-255):
  `KeyDecoder.ChunkIndependenceIff`.

## Model

| member | source | states |
|---|---|---|
| Models.ValidateDocument | src/bai_agent/domain/models.py:396-437 | accepts a document if and only if its fields, spans and ids are valid, every `supersedes` target is one of its memories and the relation has no cycle; for any memories in any order, dangling targets included |
| SupersedesGraph.CycleVisitor.Visit | src/bai_agent/domain/models.py:424-434 | one call of `visit` ends, keeps the finished nodes in an order in which every edge points back, and fails only when the relation has a cycle |
| SupersedesGraph.NoCycle | src/bai_agent/domain/models.py:421-437 | the visiting/visited walk over all nodes, in any order, answers yes if and only if the relation is acyclic; asked, as in the code, once all targets are known |
| RawArchive.ReadAllIff | src/bai_agent/memory/archive.py:44-72 | `read_all` gives a log if and only if the numbered, terminated segment files hold exactly that well-formed log: valid records, sequences 1, 2, 3, no id and no (turn, role) twice |
| RawArchive.RawRecordArchive.ReadAll | src/bai_agent/memory/archive.py:47-72 | the loops with their counter and two sets give that reading, the first failing check included |
| RawArchive.RawRecordArchive.Append | src/bai_agent/memory/archive.py:74-116 | every check in its order, then one atomic write; a crash leaves the disk before or after it |
| RawArchive.AppendReads | src/bai_agent/memory/archive.py:74-116 | reading after an append gives the old log and exactly the new record at its end |
| RawArchive.AppendKeepsLimits | src/bai_agent/memory/archive.py:94-114 | an append keeps every segment within the record and byte limits and only the last one possibly empty |
| RawArchive.RawRecordArchive.CheckPairs | src/bai_agent/memory/archive.py:140-150 | the pairwise loop accepts if and only if the records are complete USER/ASSISTANT pairs of one turn each |
| RawArchive.RawRecordArchive.DiscardPendingTail | src/bai_agent/memory/archive.py:124-168 | each refusal in its order, or one write that drops the last stored line |
| RawArchive.DropLastLineReads | src/bai_agent/memory/archive.py:152-168 | what is dropped is the last record of the log, and the log is the rest |
| RawArchive.DiscardUndoesAppend | src/bai_agent/memory/archive.py:124-168 | discarding a record just appended gives back the flat log |
| RawArchive.RawRecordArchive.AppendPendingUser | src/bai_agent/memory/archive.py:178-196 | publishes the USER over exactly the recorded baseline, accepts the same record already there, refuses anything else |
| RawArchive.RawRecordArchive.AppendCompleteTurn | src/bai_agent/memory/archive.py:198-240 | publishes the missing halves in order, each one atomic write; a crash may leave the USER alone |
| RawArchive.RawRecordArchive.Clear | src/bai_agent/memory/archive.py:242-249 | one unlink a segment from the newest back; a crash leaves a prefix of the files |
| RawArchive.PrefixReads | src/bai_agent/memory/archive.py:242-249 | every such prefix is still accepted by `read_all`, with a prefix of the log |
| LongTerm.SourcesCheckIff | src/bai_agent/memory/long_term.py:113-140 | the look-ups of `_validate_sources` succeed if and only if every source is a record with the recorded digest and every span position is the record of that sequence, id and digest |
| LongTerm.LongTermStore.ValidateSources | src/bai_agent/memory/long_term.py:113-140 | the loops give that check, with the first error in source order |
| LongTerm.LongTermStore.Load | src/bai_agent/memory/long_term.py:156-213 | adopts, refreshes the copy, reconciles a hand edit or falls back read-only, with the two fields the store is left with; what that gives is in the next two rows |
| HandEdits.LoadGives | src/bai_agent/memory/long_term.py:156-213 | the whole of a successful load: the copy, read-only; or the primary document with its copy refreshed; or the hand edit, taken over into both files: every item in its place, a touched one marked manual and stamped, the text as the user wrote it, the coverage as it was, the next revision |
| HandEdits.TakenOverIff | src/bai_agent/memory/long_term.py:184-213 | a hand edit of the memories is taken over if and only if it leaves the coverage alone, no touched item is from the future, and the result passes the guard and the size limit; refused, it changes nothing |
| LongTerm.LongTermStore.Commit | src/bai_agent/memory/long_term.py:215-245 | all checks, then the primary file and then its copy, as two atomic steps with a crash allowed between them |
| LongTerm.LongTermStore.PublishTarget | src/bai_agent/memory/long_term.py:247-265 | forward only from the recorded baseline or the target itself |
| LongTerm.LongTermStore.AssertPendingDiscardable | src/bai_agent/memory/long_term.py:284-305 | refuses exactly when the primary document cannot be read or its frontier, spans or sources reach the record |
| HandEdits.DiscardLeavesNoDangling | src/bai_agent/memory/long_term.py:284-305 | over any files, when the discard of the last record is allowed every reference of the document still has its record without it |
| LongTerm.LongTermStore.ClearLongTermMemories | src/bai_agent/memory/long_term.py:342-359 | the memories go, the coverage stays, as one commit over what was loaded |
| HandEdits.ClearedHasNone | src/bai_agent/memory/long_term.py:342-359 | the cleared document has no memories, the old coverage and the next revision, and is in both files |
| LongTerm.LongTermStore.ResetToFactoryState | src/bai_agent/memory/long_term.py:361-371 | the empty document replaces whatever is there, readable or not |
| Transaction.TurnUnitOfWork.Begin | src/bai_agent/memory/transaction.py:77-90 | writes PREPARED when there is no journal, the record is a USER and the guard accepts the serialized journal |
| Transaction.TurnUnitOfWork.Pending | src/bai_agent/memory/transaction.py:98-108 | PREPARED becomes READY_PENDING for a plain failure code, in one write |
| Transaction.TurnUnitOfWork.Ready | src/bai_agent/memory/transaction.py:110-124 | PREPARED becomes READY_TO_COMMIT with the answer and the target, in one write |
| Transaction.TurnUnitOfWork.Discard | src/bai_agent/memory/transaction.py:92-96 | a PREPARED journal goes, a decided one is refused |
| Transaction.TurnUnitOfWork.Commit | src/bai_agent/memory/transaction.py:126-151 | records, then document, then the journal goes; a stop anywhere keeps the journal |
| Transaction.TurnUnitOfWork.Recover | src/bai_agent/memory/transaction.py:153-160 | a PREPARED journal is thrown away, a decided one rolled forward |
| Controller.SingleTurnController.RunTurn | src/bai_agent/runtime/controller.py:195-460 | a whole turn, fresh or resumed, over every outcome of the curator, the gate, the chat and the user; and `on_output` gets a text exactly when the turn ends by showing it |
| Controller.SingleTurnController.DiscardPending | src/bai_agent/runtime/controller.py:162-167 | the pending USER is discarded after the document has been asked whether anything refers to it |
| TurnEffects.FailureKeepsMessageIff | src/bai_agent/runtime/controller.py:253-261 | a fresh turn whose chat or curator fails, killed after any step or not at all, then any start-ups: the log is the old one plus exactly the message, with its content, turn and ids, if and only if the failure is retryable or its code starts with PROVIDER_ or NETWORK_, it can be recorded, and the crash came later; otherwise everything is as before |
| TurnEffects.FailureIsReported | src/bai_agent/runtime/controller.py:427-432 | such a turn raises the code it failed with, whether its message was kept or not |
| TurnEffects.AnswerIsKept | src/bai_agent/runtime/controller.py:433-460 | a fresh turn that is answered ends over the old log plus its message and exactly this answer, with the document of the curator if there is one, and shows the answer |
| TurnEffects.OthersLeaveNothing | src/bai_agent/runtime/controller.py:249-252 | a turn that is rejected, cancelled or cannot be assembled leaves the disk as it was, after any crash and start-up |
| TurnEffects.RejectedTurnEnds | src/bai_agent/runtime/controller.py:422-426 | a rejected chat ends the turn without an error, over the disk it started from |
| StartUps.StartOverPending | src/bai_agent/cli.py:249-268 | over a message without an answer a start-up goes on with its turn and writes nothing when it is to be resumed, and otherwise takes away exactly this message |
| StartUps.StartOverWholeTurns | src/bai_agent/cli.py:249-268 | over whole turns a start-up writes nothing and waits for input |
| StartUps.ResumedAnswer | src/bai_agent/runtime/controller.py:433-460 | a resumed turn that is answered shows exactly this text, and the log ends with it right after the message |
| Turns.NewTurnKeeps | src/bai_agent/runtime/controller.py:195-460 | every atomic step of a fresh turn leaves a readable turn-shaped log that extends the old one, no dangling reference and a matching journal; a normal end leaves no journal and whole turns; a shown text is in the log |
| Turns.PendingTurnKeeps | src/bai_agent/runtime/controller.py:195-260 | the same for a resumed turn, over the answered part of the log |
| Turns.DiscardIsNeverBlocked | src/bai_agent/memory/long_term.py:284-305 | in a safe state with a readable document a pending USER can always be discarded |
| Turns.TargetCoherent | src/bai_agent/memory/curation.py:188-232 | whatever the curator model answers, a target that comes out is a valid document that stands on the log, with a larger frontier; the rows of `Proposals` say what is in it |
| Session.ChatSession.Start | src/bai_agent/cli.py:249-268 | start-up recovers first and then resumes or discards the unanswered USER |
| Session.EventKeeps | src/bai_agent/cli.py:249-268 | one event (start-up, turn, quit, either reset), dying after any number of its atomic steps, keeps the invariant of disk, phase and shown answers |
| Session.EveryRunKeeps | src/bai_agent/runtime/shell.py:219-235 | so does every run: the log is complete pairs and at most one trailing USER, no reference of either document file dangles, every shown answer is in the log, and unless a full reset ran no answered turn was lost or changed |
| Session.FreshStart | src/bai_agent/cli.py:249-268 | the empty directory satisfies the invariant |
| Session.ResetAllSafe | src/bai_agent/memory/reset.py:74-99 | at every step of a full reset the remaining log is readable and nothing dangles |
| Session.ResetLongTermSafe | src/bai_agent/memory/reset.py:55-72 | the same for the reset of the long-term memories, which leaves the log alone |
| Reset.MemoryResetService.ResetAll | src/bai_agent/memory/reset.py:74-99 | document first, then the segments, whatever the old document was |
| Reset.MemoryResetService.ResetLongTerm | src/bai_agent/memory/reset.py:55-99 | refused over an unreadable log, otherwise the memories are cleared |
| Recovery.RecoverResumes | src/bai_agent/memory/transaction.py:126-160 | from every stage of an interrupted roll-forward whose documents can be read `recover` performs exactly the writes that are missing, and succeeds |
| Recovery.Restart | src/bai_agent/memory/transaction.py:153-160 | start-up from every stage of a publishable decision performs exactly the remaining writes, or is refused with the code of that stage: between the two document writes when the memories changed or are too many, and behind both when they are too many |
| Recovery.Converges | src/bai_agent/memory/transaction.py:126-160 | after any number of interrupted start-ups a whole one ends in the decided state if and only if none of them was left at such a stage short of the end, and it completes if and only if its own stage refuses nothing |
| Recovery.DoneMeans | src/bai_agent/memory/transaction.py:126-151 | the decided state: exactly the journalled records after the old log, the target or the old document in both files, no journal |
| Atomicity.TurnWrites | src/bai_agent/runtime/controller.py:262-460 | every disk a fresh turn leaves behind: PREPARED first, then the write of the decision and those of its commit, or nothing more |
| Atomicity.DecisionHolds | src/bai_agent/runtime/controller.py:419-460 | whatever the models answered and however large the target is, a decision matches the log and the document it was taken over |
| Atomicity.AllOrNothing | src/bai_agent/memory/transaction.py:77-160 | a fresh turn killed after any number of its steps, then any number of interrupted start-ups and a whole one: without a decision on disk everything is as before the turn; with one, whatever its sizes, the decided state is reached if and only if all of it can be published and no crash left it between two document writes that change the memories or hold too many, or behind two that hold too many |
| Resumed.ResumedWrites | src/bai_agent/runtime/controller.py:262-460 | every disk of a resumed turn, which has no journal: the target in two writes if one is committed, then the answer or the rejection |
| Resumed.ResumedCrash | src/bai_agent/runtime/controller.py:262-460 | a resumed turn killed after any number of steps, then start-ups: exactly the disk it ends in |
| Resumed.ResumedOutcome | src/bai_agent/runtime/controller.py:262-460 | the document is still the old one if and only if no target was committed or the crash came first; the log has the answer only from the third step on, so the new document may stand without it |
| Edits.CommitKeepsEdits | src/bai_agent/memory/transaction.py:126-151 | `commit` from any disk at all: every write keeps the readable log and adds only journalled records, replaces no document but a marked edit or the recorded baseline, and the journal goes if and only if the commit succeeds, last |
| Edits.RecoverKeepsEdits | src/bai_agent/memory/transaction.py:153-160 | the same for `recover`; a PREPARED journal goes and nothing else changes; an unreadable one changes nothing |
| EditedRuns.AloneIsCommit | src/bai_agent/memory/transaction.py:126-151 | the commit cut into single writes ends as the commit itself does, on the same disk, when nobody else is at the files |
| EditedRuns.EditedRunKeeps | src/bai_agent/memory/archive.py:178-240 | with anything at all happening to the files between two writes, each write still keeps every readable record, adds only journalled ones, replaces only a marked edit or the baseline, and a commit that stops leaves its journal |
| EditedRuns.NothingIsLost | src/bai_agent/memory/archive.py:178-240 | while nobody else takes a record away, no record is lost from the first disk to the last |
| Limits.CommittedLoads | src/bai_agent/memory/long_term.py:215-245 | a committed document loads again if and only if its memories are within the item limit, which `commit` does not check |
| Limits.StallsOn | src/bai_agent/memory/archive.py:85-101 | a decision that cannot be published, for its records or for its target, is carried up to the refusal by the commit and by every start-up, and fails there |
| Limits.NeverDone | src/bai_agent/memory/transaction.py:126-160 | whatever the interruptions, such a decision is never done and its journal stays |
| Limits.StartsIffPublishable | src/bai_agent/memory/transaction.py:98-124 | the start-up after a decision completes if and only if its records pass the guard and the size limit of `append` and its target the guard, the overview limit and the document limit of `commit`; `pending` and `ready` check none of them |
| AfterReset.ResetEnds | src/bai_agent/memory/reset.py:74-99 | from any disk, `reset all` succeeds if and only if the empty document fits the limits, and leaves both stores empty and the journal as it was |
| AfterReset.ResetThenStart | src/bai_agent/memory/reset.py:74-99 | after a full reset over an open decision of any size start-up completes if and only if the log of the decision was empty and it can be published over the emptied stores; it then brings the decided turn back |
| Witnesses.OversizedAnswerRun | src/bai_agent/memory/archive.py:85-101 | a turn with an answer too long for a record, after which no start-up completes |
| Witnesses.EscapedSecretRun | src/bai_agent/memory/transaction.py:66-75 | a turn whose text the guard knows only unescaped: the journal is written, no start-up completes |
| Witnesses.OversizedTargetRun | src/bai_agent/memory/long_term.py:215-245 | a turn that curates a document too long for `commit`: it is journalled, its records are published, no start-up completes |
| Witnesses.OverfullRun | src/bai_agent/memory/long_term.py:88-111 | a turn that ends over the item limit, killed at any step from the second document write on or not at all: no start-up completes |
| Witnesses.TornRun | src/bai_agent/memory/long_term.py:215-245 | a turn that curates, killed between its two document writes, after which no start-up completes |
| Witnesses.ResetRun | src/bai_agent/memory/reset.py:74-99 | a decided turn, a full reset, and no start-up completes |
| Witnesses.UnpublishableTurn | src/bai_agent/memory/transaction.py:98-124 | every turn whose decision cannot be published ends over a journal that no start-up gets past |
| Witnesses.TornTurn | src/bai_agent/memory/long_term.py:215-245 | every turn killed between the two document writes of a target with other memories leaves files that no start-up accepts, with the code it is refused with |
| Witnesses.OverfullTurn | src/bai_agent/memory/long_term.py:88-111 | every turn whose target holds too many items stops every start-up once both files hold it, whether the journal is still there or not |
| Curation.ComputeNextBatch | src/bai_agent/memory/curation.py:115-151 | the grouping and selecting loops compute the batch that the next two rows describe |
| Curation.NextBatchOnAnyLog | src/bai_agent/memory/curation.py:115-151 | on any log, forced or not: a batch is the first answered turns after the frontier, each whole, within the minimum and the maximum; unforced only over a full window |
| Curation.NextBatchExact | src/bai_agent/memory/curation.py:115-151 | on a turn-shaped log, forced or not: exactly when there is a batch, that it is the records after the old frontier in whole turns of a closed-form size, and that it brings the window back to its direct limit if and only if the excess fits the maximum in whole turns |
| Coherence.MergeKeepsCoherence | src/bai_agent/memory/curation.py:658-718 | the merged document is valid, all its sources and spans resolve, spans partition 1 to the frontier, new ids are new, and the frontier strictly advances |
| Coherence.FreshItemsStayAcyclic | src/bai_agent/domain/models.py:413-437 | memories that supersede nothing never close a cycle |
| Curation.Merge | src/bai_agent/memory/curation.py:658-718 | the merge loop with its set of texts computes that document |
| Proposals.SortOrders | src/bai_agent/memory/curation.py:208-212 | the batch in event-time order: by creation time, then by sequence, each record as often as before |
| Proposals.AliasesAre | src/bai_agent/memory/curation.py:213-216 | `rN` is the N-th record in that order, for every N up to their number, and there are no other aliases |
| Proposals.CandidatesAre | src/bai_agent/memory/curation.py:608-645 | the candidates come through if and only if every source is an alias of the batch and every text passes the guard; each is then what the model said, its sources the records that its aliases name |
| Proposals.TargetIff | src/bai_agent/memory/curation.py:188-232 | an answer becomes a document if and only if it keeps the schema, cites nothing but the batch and passes the guard |
| Proposals.OtherAnswers | src/bai_agent/memory/curation.py:188-207 | without a due batch there is no proposal; a rejection, a failed call and an answer that is not JSON give their own ends |
| Proposals.TargetMeans | src/bai_agent/memory/curation.py:658-718 | in that document the old memories stay, one is added for each candidate whose text no active memory and no earlier candidate has, citing exactly the records of its aliases with their digests; the overview is the answer, the coverage grows by the batch |
| Coverage.ValidateCompleteCoverage | src/bai_agent/memory/selection.py:30-85 | the checking loops, with the first failing check |
| Coverage.AcceptedMeansExactlyOnce | src/bai_agent/memory/selection.py:30-85 | acceptance represents every record, and each exactly once if and only if the current input is not itself covered |
| Coverage.CoveredCurrentIsDoubled | src/bai_agent/memory/selection.py:30-85 | one accepted case in which a record is represented twice |
| Coverage.ControllerSplitAccepted | src/bai_agent/runtime/controller.py:262-307 | the split of the controller is always accepted, fresh or resumed, with every record represented once |
| Boundaries.PositionPieces | src/bai_agent/prompting/boundaries.py:69-94 | the cursor loop gives fragments that tile the text |
| Boundaries.PositionInvertsPieces | src/bai_agent/prompting/boundaries.py:55-94 | positioning the pieces of a tiling gives the same fragments back |
| Boundaries.TilesMeansConcatenation | src/bai_agent/prompting/boundaries.py:69-94 | a tiling is the text: its contents in order concatenate to it |
| Boundaries.RenderedLengthIsExact | src/bai_agent/prompting/boundaries.py:128-172 | `rendered_length` is the length of what `wrap` gives for every content, and both refuse the same names |
| Boundaries.WrapTiles | src/bai_agent/prompting/boundaries.py:128-163 | a frame holds the content unchanged between its two boundaries, tiled |
| Temporal.AnnotateHistory | src/bai_agent/prompting/temporal.py:75-202 | the scan with its three moving variables computes the history that the rows below describe |
| Temporal.ScanIsMarking | src/bai_agent/prompting/temporal.py:110-160 | a marker stands before an entry if and only if the whole-list condition says so: first, gap, date change, reversal, or refresh since the nearest earlier marker |
| Temporal.MarkingIsUnique | src/bai_agent/prompting/temporal.py:110-160 | that condition has one solution, so it defines the markers |
| Temporal.QuietRunIsTight | src/bai_agent/prompting/temporal.py:110-160 | inside an unmarked run starts never go back, all lie within the refresh interval and every gap is below the long gap |
| Temporal.QuietRunIsOneDay | src/bai_agent/prompting/temporal.py:110-160 | with date splitting on, the point events of a run share one local date |
| Temporal.ReadBack | src/bai_agent/domain/models.py:827-849 | the cursor loop of the history validator decides that the fragments read back the text |
| Temporal.AnnotatedIsValid | src/bai_agent/domain/models.py:827-849 | for distinct entries the annotated history always passes its own validator |
| Temporal.BodiesComeBack | src/bai_agent/prompting/temporal.py:160-202 | the BODY fragments are the non-empty bodies in order, each with the sources and the trust of its own entry |
| PromptContents.HistoryShows | src/bai_agent/prompting/temporal.py:110-202 | the text of an annotated history: the entries one below the other, the time on a line of its own before each that the whole-list condition marks |
| Assembly.RequestParts | src/bai_agent/prompting/assembler.py:449-531 | the loop over segments and fragments, with its order counter |
| Assembly.AssembledIsTiled | src/bai_agent/prompting/assembler.py:73-320 | every segment of every assembled prompt is plain or exactly tiled by its fragments |
| PromptContents.AssembledShows | src/bai_agent/prompting/assembler.py:73-320 | what is in every assembled prompt, segment by segment: the persona, the states, the overview, the long-term memories, the recent records and the input, each from its own texts or entries, every body with the sources of its entry; and it fails on a budget exactly when one of the three blocks is over its own limit |
| PromptContents.PartsCarry | src/bai_agent/prompting/assembler.py:449-531 | the parts of a segment take over text, place, sources and trust of its fragments |
| ToolHistory.RenderToolHistory | src/bai_agent/runtime/controller.py:40-125 | the messages and parts of the tool events, with the moving cursor |
| ToolHistory.EventAttributes | src/bai_agent/runtime/controller.py:75-125 | the parts of one event tile its message |
| ToolHistory.EventsMakeTheBlock | src/bai_agent/runtime/controller.py:40-75 | splitting the annotated block by event loses and repeats nothing |
| ToolContents.ToolsShow | src/bai_agent/runtime/controller.py:40-125 | each event has a message of its own, in order, which shows that event and no other: its time when the whole-list condition marks it, and its body |
| Provenance.ResolveJsonPointer | src/bai_agent/model_calls/provenance.py:16-33 | the token loop of `resolve_json_pointer`, its failures included |
| Provenance.UnescapeInvertsEscape | src/bai_agent/model_calls/provenance.py:16-33 | reading an escaped key gives the key back, whatever it contains |
| Provenance.ResolvePath | src/bai_agent/model_calls/provenance.py:16-33 | every place in a payload has a pointer, and resolving it leads there |
| Provenance.ValidateProvenance | src/bai_agent/model_calls/provenance.py:36-78 | accepts if and only if something is included in increasing order, every part is what the payload holds at its place, the spans at each pointer tile the text there, and no source is unknown |
| Provenance.AcceptanceIsSound | src/bai_agent/model_calls/provenance.py:36-78 | the text at every pointer with spans is the contents of its parts in span order, each with a source |
| Attribution.EachCharOnceIff | src/bai_agent/model_calls/provenance.py:44-78 | in an accepted list every character of an attributed text lies in exactly one included part, if and only if no two included parts of one text are both whole-content and no two spell its place differently |
| Attribution.WholesRepeat | src/bai_agent/model_calls/provenance.py:48-52 | one field attributed twice under one pointer by two whole-content parts is accepted |
| Attribution.SpellingsRepeat | src/bai_agent/model_calls/provenance.py:53-60 | one field attributed twice under two spellings of its pointer is accepted |
| Pipeline.AssembledIsAccepted | src/bai_agent/prompting/assembler.py:449-531 | for all entries, policies, frames and tool events, an assembled prompt passes `validate_provenance` on its messages |
| Attribution.AssembledOnce | src/bai_agent/prompting/assembler.py:449-531 | and every character of every message has exactly one part |
| CurationPrompt.ExpandPrompt | src/bai_agent/memory/curation.py:546-601 | one scan of the template for dollar signs, names and braces, with spans recorded while the text grows |
| CurationPrompt.ScanKeepsText | src/bai_agent/memory/curation.py:570-601 | the scan cuts every template into literals without a dollar sign and holes that together are its text |
| CurationPrompt.CurationIsAccepted | src/bai_agent/memory/curation.py:392-446 | for every template, frame, time policy and entry list, an expanded curation prompt passes `validate_provenance`, with one part for every character |
| CurationContents.CurationReads | src/bai_agent/memory/curation.py:300-446 | what is in the curator prompt: the template with every name filled by the text that belongs to it, records, memories and overview each from their own entries; it expands if and only if every name is known |
| Selection.SelectLongTerm | src/bai_agent/memory/selection.py:100-143 | ranks the active memories and runs the greedy loop over them, with and without a time policy |
| Selection.RankedIs | src/bai_agent/memory/selection.py:110-122 | the ranking holds exactly the active memories, and none stands before one with a better score |
| Selection.RankingMeans | src/bai_agent/memory/selection.py:110-122 | spelled out: manual memories first, among those the ones with more terms of the query, then by the first difference of their ids |
| Selection.BudgetAgrees | src/bai_agent/prompting/assembler.py:179-189 | for all memories the budget check on the selected ones fails if and only if nothing was selected and even the empty block does not fit |
| Selection.PassedOverOverflows | src/bai_agent/memory/selection.py:100-143 | an active memory that was passed over would have overflowed the block of memories selected before it, none of which it is better than |
| LineEditor.LineLayout | src/bai_agent/runtime/tty_input.py:54-78 | the row and column loop, wide glyphs at the margin included |
| LineEditor.RedrawDraws | src/bai_agent/runtime/tty_input.py:367-378 | returning, moving up, erasing below and printing draws exactly the picture of the line |
| LineEditor.EchoDrawsAll | src/bai_agent/runtime/tty_input.py:298-339 | for every sequence of keys whose glyphs are one or two columns wide, the echo leaves on the emulated screen exactly the picture of the buffer, cursor included, across wraps, deleted line breaks and entries of several characters |
| LineEditor.TtyLineEditor.Handle | src/bai_agent/runtime/tty_input.py:257-339 | one key, in and out of a paste: the buffer, the mode, the results, the bytes echoed, and whether it raises |
| LineEditor.TtyLineEditor.Backspace | src/bai_agent/runtime/tty_input.py:302-339 | the last entry goes and its line, or the line it ended, is drawn again; a line with an entry of several characters is drawn again as it is |
| Utf8Decoding.OneCharacterIff | src/bai_agent/runtime/tty_input.py:229-234 | decoding with replacement makes one character of a sequence if and only if it is one byte or well-formed UTF-8 (section 3 of RFC 3629) |
| KeyDecoder.Decoder.Consume | src/bai_agent/runtime/tty_input.py:215-255 | one character or one escape sequence off the front, or nothing while it is incomplete |
| KeyDecoder.ChunksDoNotMatter | src/bai_agent/runtime/tty_input.py:201-255 | when no control sequence is longer than 65 bytes every way of cutting a stream gives the same sequences and leftover |
| KeyDecoder.ChunkIndependenceIff | src/bai_agent/runtime/tty_input.py:236-255 | a stream decodes alike under every cut in two if and only if it has no control sequence of 66 bytes or more |
| KeyDecoder.TextDecodes | src/bai_agent/runtime/tty_input.py:215-234 | text without escapes decodes to its characters, whatever their length in UTF-8 (section 3 of RFC 3629) |
| TtyInput.TtyInputSource.Feed | src/bai_agent/runtime/tty_input.py:201-213 | a chunk of any bytes: the leftover, the edits, the echo, the screen, and whether an exception ends the loop before the chunk does |
| Keystrokes.StreamDoes | src/bai_agent/runtime/tty_input.py:201-300 | any bytes at all: every sequence that is handled does what its bytes are for, spelled out for CR, LF, DEL, BS, EOT, the paste markers, both forms of Shift+Enter, text and malformed text, in and out of a paste |
| Keystrokes.EchoIs | src/bai_agent/runtime/tty_input.py:267-339 | the echo of a key, but for a deletion: the glyphs of what is typed, CR LF for a line break and for a line handed in, nothing when nothing changes |
| Keystrokes.LineIsHandedIn | src/bai_agent/runtime/tty_input.py:262-300 | printable text and Enter hand in exactly that text behind what was in the buffer, and leave nothing |
| Keystrokes.LineInChunks | src/bai_agent/runtime/tty_input.py:201-300 | and so does a line cut into chunks anywhere, inside a character too |
| TtyInput.CutShortIff | src/bai_agent/runtime/tty_input.py:201-296 | the loop is ended by an exception if and only if it meets, outside a paste, a malformed sequence of several bytes that becomes unprintable characters |
| TtyInput.TextIsHandled | src/bai_agent/runtime/tty_input.py:201-296 | a stream of well-formed text and escape sequences is always handled to its end, whatever the font says of it |
| TtyInput.TypingIsChunkIndependent | src/bai_agent/runtime/tty_input.py:201-300 | however the bytes of a stream without such a sequence arrive, buffer, paste mode, lines handed in, echo, screen and leftover are the same, and the screen is the picture of the buffer when it can be drawn |
| TtyInput.CutAgreesIff | src/bai_agent/runtime/tty_input.py:201-300 | for any stream, two chunks do what one does if and only if the first raises nothing, or what is left behind it completes no sequence |
| TtyInput.LatinLetter | src/bai_agent/runtime/tty_input.py:215-296 | a Latin-1 letter before Enter and two letters: cut or whole they end differently |
| Gateway.CallIdentityAllocator.Assign | src/bai_agent/model_calls/gateway.py:41-54 | a call id is used once, and its number is one more than the calls of its turn before |
| Gateway.ModelCallGateway.CompleteAssigned | src/bai_agent/model_calls/gateway.py:106-168 | the retry loop: what it approves, sends and fails, how it ends, cancellations at the screen, in flight and between attempts included, and what the screen still holds |
| Gateway.ModelCallGateway.Complete | src/bai_agent/model_calls/gateway.py:90-93 | numbering and loop together, a repeated id refused without a trace |
| Gateway.CallIsAttempts | src/bai_agent/model_calls/gateway.py:106-168 | one call sends its attempts 1, 2, 3 up to the configured number, each approved just so, and only a retryable failure leads to another |
| Gateway.CallEndsAs | src/bai_agent/model_calls/gateway.py:106-168 | what a call gives is what its last attempt gives, each refusal, decision and reply with its own error; it succeeds if and only if that attempt is approved, sent and answered |
| Gateway.HeldIff | src/bai_agent/model_calls/gateway.py:124-147 | with approvals on a call leaves a text on the screen if and only if the approval of an attempt that is made names another payload or is cancelled, or its first attempt shows nothing and the screen held a text before |
| Gateway.EveryRunIsApproved | src/bai_agent/application.py:363-383 | over any run of calls through any gateways that share an allocator, all that was approved is all that was sent, in order, and no screen held a text during a send |
| Gateway.ServeIsComplete | src/bai_agent/application.py:363-383 | one request of such a run is one call of `complete` at its gateway, and leaves the other gateways alone |
| Gateway.TurnIsNumbered | src/bai_agent/application.py:363-383 | within a turn the calls of all gateways are numbered 1, 2, 3 and so on, in order |
| ToolExecutor.Run.RunTool | src/bai_agent/tools/executor.py:65-149 | for every tool that can be registered and every course of a call: its effects in order, and its result with its error code |
| ToolExecutor.CommittedOrUndone | src/bai_agent/tools/executor.py:65-149 | of those effects: a prepared write is committed or its recovery attempted, exactly one of the two where the tool has a commit; it is committed only after a success that passed the checks; success is returned if and only if the effect was kept; a read-only call has neither, a call that is not run has no effect |
| ToolExecutor.UndoneBy | src/bai_agent/tools/executor.py:70-83 | a write is undone by its rollback if it has one, else by its compensation, which it then has |
| MemorySource.Decode64Inverts | src/bai_agent/tools/memory_source.py:41-55 | decoding inverts encoding for every length (section 5 of RFC 4648) |
| MemorySource.CursorRoundTrip | src/bai_agent/tools/memory_source.py:41-55 | a cursor is read back at the revision it was issued for and at no other |
| MemorySource.ReadPage | src/bai_agent/tools/memory_source.py:57-107 | the page loop, with its first failing record, for its digest or for its text |
| MemorySource.PagesAreAll | src/bai_agent/tools/memory_source.py:57-107 | following the issued cursors ends, and the pages are the whole sorted list, nothing repeated or missed, if and only if the guard accepts every text in it |
| MemorySource.EveryMemoryPages | src/bai_agent/tools/memory_source.py:57-107 | so for every memory of every document that stands on the log |

## Left out

- File system, permissions, fsync and the writer lock: a write happens as a whole or not at all, and a reset never runs beside a session.
- Text layout of YAML and JSON: a stored line is a record or garbage, a document file holds a document, is missing or cannot be parsed; a segment that lacks its final newline is refused, but not cut at a byte.
- Segment file names: segments are numbered, and the order of names longer than eight digits is not modelled.
- Digests, uuid5 and new ids: taken to be injective or new.
- The credential guard: an unknown deterministic predicate on texts; its patterns and the incident store are not modelled.
- Clocks: instants are parameters; a reconciled hand edit is stamped with one.
- EditedRuns.EditedRunKeeps: an edit cannot fall between the check and the replacement of one file, because that pair is one step here; in the code such an edit of that file is lost, as the writer lock only keeps other sessions away.
- Controller.SingleTurnController.RunTurn: the tool loop inside a chat answer and the content of the prompt are an input, as what the models and the user answer is.
- Session.EveryRunKeeps: background tasks, configuration reload and the status line of the shell are not events.
- Curation.NextBatchExact: about turn-shaped logs, which every reachable log is; `Curation.NextBatchOnAnyLog` says what holds on any other.
- SupersedesGraph.NoCycle: asked once all targets are known, as the code does; `Models.ValidateDocument` has the whole check.
- The curator's request apart from its two messages, and the parsing of its answer: a response is a structured proposal or not JSON.
- Time zones: local dates and rendered instants are functions of the policy.
- Provenance: what `int` accepts as an index and how canonical JSON writes a value are functions; that one part id is used once is not modelled.
- Persona texts: taken as already stripped.
- Selection.SelectLongTerm: which terms a query has and which of them a text contains is a number for each memory, not a regular expression and case folding.
- LineEditor.EchoDrawsAll: graphemes of several characters that a font joins (combining marks, flags, ZWJ sequences) are not modelled; tabs and control characters typed inside a paste have an echo but no picture; the terminal is not resized.
- Raw mode, signals and closing of the terminal.
- Gateway: the length of the pause between attempts, token estimates and usage; what the adapter does before a payload exists, but for failing the checks; a cancellation while a call waits for its turn, which has no effect.
- ToolExecutor.Run.RunTool: a cancellation that arrives while an undo is under way.
- MemorySource.CursorRoundTrip: of malformed cursors, those are not modelled whose foreign characters the base64 decoder of Python drops; the JSON inside a cursor is a codec that agrees with itself.
- The Textual interface, the provider client, configuration loading, the autonomous loop and the state resolver: easy members or plumbing.
