# Rennet adapters: a verified model

This project models the protocol and state code of `packages/adapters` in Dafny and proves what that code is for.
`dafny verify dfyconfig.toml` checks it.

## What is modelled

**The Codex turn.** `runCodexTurn` is a JSON-RPC client: a handshake of requests, answers matched by id, notifications
that belong to its own thread and turn, an abort, and one terminal frame. `CodexAppServer` holds the object with its
mutable fields and the step function it is proved to compute; messages, responses and notifications have the shapes of
sections 4, 4.1 and 5 of the JSON-RPC 2.0 specification. `RunnerSafety` and `NonInterference` reason over every
schedule of messages, aborts, pauses and exits; `RunnerLaws` and `RunnerReads` say, in terms of the records alone,
what the terminal frame reports and when each message ends or identifies the turn. `CodexNormalizer` turns frames into
events, `EventQueue` is the bounded queue with its cursor and compaction, `CodexSession` the pump with its settlement
guard; `NormalizerLaws`, `SessionLaws` and `SessionCeiling` say what is said of each frame, how a session ends and
when it overflows, in terms of the frames it was given, and `CodexEndToEnd` states what the four layers guarantee
together. `Machine` holds what is true of any run of a deterministic machine, and when inputs can be erased from one.

**The schema rewrite.** `CodexExec` models the rewrite that makes every property required and nullable, closes objects
and weakens unions, and the value stripping that undoes it, over a typed schema tree with a denotation (the
`properties`, `required`, `additionalProperties`, `items`, `anyOf` and `oneOf` of JSON Schema 2020-12: Core 10.2.1.2,
10.2.1.3, 10.3.2.1 and 10.3.2.3, Validation 6.5.3). `SchemaSoundness` and `SchemaRootUnion` say exactly when the pair
is sound, below the root and for a lowered root union; `SchemaCompleteness` and `SchemaNormalForm` prove it complete
and idempotent.

**Git's text formats.** `GitPaths`, `GitRecords` and `UnifiedDiff` are the parsers as loops; each has the printer Git
uses and the proof that the parser undoes it. `GitHeaders` says which file names survive the header lines,
`DiffBlocks` where a diff splits, `DiffEntries` what any blocks add up to, and `DiffHazards` what one carriage return
can do.

**Protocols with interleavings or faults.** `BaselineWatch` (debounce, coalesce, cancel), `TokenRotation` (refresh
under a lock) with `TokenAnswers` (which credential each answer is about), `GitLabPublish` and `GitHubPublish`
(publication with lost requests, over `Publication`), `AskLog`, `ParsedFileCaches` and `DurableReplace` (the
append-only log, its stamped memo, its crash-safe replacement), `FileTree`, `RootedHost`, `RootedSafety`, `RootedLaws`
and `Manifest` (the rooted filesystem host), `ExcludeRule` (its exclude-file update), and `ExecEvidence` with
`EvidenceLaws` (the commands a turn is observed to have run).

Objects that mutate fields are classes whose methods are tied to functions of the old state (`View()`, `Apply`,
`Contribute`); parsing loops are loops with invariants; protocols whose awaits interleave are state machines over
their steps. The environment (a server, a forge, a file system, a clock) appears as the steps or parameters it may
take.

## Where the code falls short of what it says

Each of these is a lemma with a concrete input or an exact condition, not a repair.

- `runCodexTurn` compares answers with unset ids that are -1, so a first response with id -1 starts a turn before the
  handshake (`RunnerSafety.SentinelSkipsHandshake`), and a repeated answer sends a handshake message again
  (`RunnerSafety.RestartBreaksScript`); the script is followed if and only if neither happens (`RunnerSafety.HandshakeOrder`).
- A server record that carries the adapter's own `rennet` tag is taken for the terminal frame
  (`CodexEndToEnd.ForeignResponseInertIffUnclaimed`): a failed turn can be reported completed
  (`CodexEndToEnd.ATaggedResponseChangesTheOutcome`). The comment says a foreign record never touches the outcome.
- Stripping nulls loses a required property that was emitted null (`SchemaSoundness.RequiredNullIsLost`); where
  unions tell their branches apart, a value is lost exactly then (`SchemaSoundness.RewriteIsSoundIff`). Lowering a root union admits values of no branch
  (`SchemaRootUnion.LoweredRootAdmitsNoBranch`), exactly those that answer for none (`SchemaRootUnion.LoweringIsSoundIff`).
  The source relies on validating the emitted body afterwards.
- A deleted, empty or mode-only file with a space in its path is parsed under another path, and a renamed file from or to
  a top-level directory `a` or `b` can lose that directory; the paths that come back are exactly those of
  `UnifiedDiffRoundTrip.NamesAreReadIff`. `UnifiedDiffRoundTrip.ADeletedNameWithASpaceIsLost` is an instance.
- A changed line can hold a carriage return, a U+2028 or a U+2029, after which the parser's multi-line patterns match
  again: it can turn its file binary (`DiffHazards.AnAddedLineHidesItsFile`) or invent another
  (`DiffHazards.AnAddedLineInventsAFile`), exactly when `UnifiedDiffRoundTrip.SplitsIff` says. The comments promise that
  body lines are anchored away from both.
- In a path quoted with `core.quotePath` off, a character written as a surrogate pair is decoded to replacement
  characters; the paths that come back are exactly those without one (`GitPaths.UnquoteUndoesRawQuoteIff`).
- A path with a tab in it misses its numstat entry, and its file is called binary
  (`GitRecords.ATabbedPathIsCalledBinary`); a listing without one is read right (`GitRecords.JoinIsExact`).
- A drain whose pass fails is not retried until the next movement, which repairs it (`BaselineWatch.FailedPassIsForgotten`,
  `BaselineWatch.NextMovementRepairs`); a quiescent watch is current exactly when its last iteration did not fail over a
  stale store (`BaselineWatch.QuiescentIsCurrent`).
- A rotation whose answer or whose write is lost makes the next renewal present a dead token
  (`TokenRotation.ALostRotationReplays`); replays happen exactly then (`TokenRotation.RotationSafety`).
- The GitHub scan reads the oldest reviews first, although its comment expects the marker on the first pages; beyond two
  thousand reviews an attempt can duplicate, exactly when `GitHubPublish.DuplicatesExactlyBeyondTheBound` says.
- `AskLogStore.write` does not look at how many bytes its one write call stored
  (`DurableReplace.WholeExactlyWhenFullyWritten`).
- A torn append to the exclude file can leave a shorter rule nobody asked for
  (`ExcludeRule.FailureAddsExactlyWhatWasStored`).

## Model

| member | source | states |
|---|---|---|
| CodexAppServer.ScanItems | packages/adapters/src/codex-app-server.ts:168-178 | the scan returns the text of the last completed agent message, and something exactly when there is one |
| CodexAppServer.TurnRunner.NextRequestId | packages/adapters/src/codex-app-server.ts:282-296 | each request takes a new id, one above the last, and the id becomes pending |
| CodexAppServer.TurnRunner.AbortFired | packages/adapters/src/codex-app-server.ts:307-323 | an abort interrupts at most once and only with both ids known; without them it only kills the child |
| CodexAppServer.TurnRunner.ErrorResponded | packages/adapters/src/codex-app-server.ts:399-420 | an error answer to an own id ends the turn failed; a foreign one is surfaced and nothing else moves |
| CodexAppServer.TurnRunner.ThreadStarted | packages/adapters/src/codex-app-server.ts:426-443 | the thread id is learned and the turn requested, or its absence ends the turn |
| CodexAppServer.TurnRunner.SuccessResponded | packages/adapters/src/codex-app-server.ts:421-451 | the answer to each issued id takes the next handshake step; any other is surfaced |
| CodexAppServer.TurnRunner.Notified | packages/adapters/src/codex-app-server.ts:462-488 | a rejected notification is surfaced as foreign, an owned one is absorbed and yielded, and the completed turn is awaited |
| CodexAppServer.TurnRunner.MessageRead | packages/adapters/src/codex-app-server.ts:380-491 | every message shape takes exactly one branch of the loop |
| CodexAppServer.TurnRunner.TurnCompleted | packages/adapters/src/codex-app-server.ts:342-375 | the method takes the step that ends the turn; what the terminal frame then says of the record is RunnerLaws.TurnEndsAsItSays |
| CodexAppServer.TurnRunner.Exited | packages/adapters/src/codex-app-server.ts:493-523 | a child that exits before the turn completed ends it cancelled or failed, the failure saying the exit code and what the child wrote |
| CodexAppServer.TurnRunner.Drive | packages/adapters/src/codex-app-server.ts:278-532 | the object with its mutable fields, driven along any schedule, is in the state the step function computes |
| RunnerSafety.ExactlyOneTerminal | packages/adapters/src/codex-app-server.ts:278-532 | over every schedule there is no terminal frame before the end, then exactly one, last, with an error exactly when failed, never completed after an interrupt, and the child killed |
| RunnerSafety.AbortRulesOutCompletion | packages/adapters/src/codex-app-server.ts:307-375 | an abort observed at any point before the terminal frame rules out a completed outcome |
| RunnerLaws.TurnEndsAsItSays | packages/adapters/src/codex-app-server.ts:342-523 | over every run: if the last frame before the terminal one is the notification that ended the turn, the outcome is cancelled exactly when its turn.status is interrupted or an abort was observed, failed exactly when otherwise that status is failed, with the record's own message or a stock one and what stands beside it, and completed otherwise, with the last text streamed, else the last of the turn's items, and the last usage reported; any other end is never completed |
| RunnerLaws.RunGathers | packages/adapters/src/codex-app-server.ts:470-488 | over every run the final message is the text of the last owned completed agent message yielded, and the usage that of the last owned usage notification that has one |
| RunnerLaws.UsageReads | packages/adapters/src/codex-app-server.ts:148-166 | total before last; cached input is counted once, never below zero, and the sum is of what is reported |
| RunnerReads.ThreadIsLearned | packages/adapters/src/codex-app-server.ts:426-443 | the answer to the thread request names the thread, and the model if it likes; one that names no thread ends the turn |
| RunnerReads.TurnIsLearned | packages/adapters/src/codex-app-server.ts:444-487 | the turn is the first one named by the answer to the turn request or by an owned turn/started |
| RunnerReads.ForeignIffOther | packages/adapters/src/codex-app-server.ts:334-341 | a notification is foreign if and only if it names another thread, or another turn in either of its two places, than the one learned |
| RunnerReads.MessageEndsIff | packages/adapters/src/codex-app-server.ts:380-488 | a message ends the reading if and only if it is an unparsed line, an error answer to a pending id, a thread answer without a thread, or the owned turn/completed, each with its own error |
| RunnerReads.ExitSaysWhy | packages/adapters/src/codex-app-server.ts:493-523 | an exit ends the turn failed as a spawn error, else cancelled if aborted, else failed with the exit code and what the child wrote |
| RunnerReads.AbortIsObserved | packages/adapters/src/codex-app-server.ts:307-323 | over every run an abort is on record exactly when one came before the end, or was there at the start |
| RunnerReads.AbortActs | packages/adapters/src/codex-app-server.ts:307-323 | the first abort interrupts the turn under a fresh id if both ids are known and otherwise kills the child; a later one does nothing |
| RunnerReads.TheTurnCanEnd | packages/adapters/src/codex-app-server.ts:380-523 | the end of the stream and the exit finish a reading runner, being resumed finishes exactly one that yielded the end of its turn, and no message is read but while reading |
| RunnerReads.RequestsAreAnswered | packages/adapters/src/codex-app-server.ts:454-461 | over every run each server request is answered once, in order, with its own id |
| RunnerSafety.RunKeeps | packages/adapters/src/codex-app-server.ts:421-451 | a learned turn id never changes, frames and messages are only added, and a finished run is frozen |
| RunnerSafety.HandshakeOrder | packages/adapters/src/codex-app-server.ts:292-443 | what the client sends is a prefix of the one handshake script (each request once, ids strictly increasing, interrupt once and last, with the own thread and turn) if and only if no answer restarts it |
| RunnerSafety.HandshakeSafety | packages/adapters/src/codex-app-server.ts:421-451 | against a server that answers each id at most once, the script is followed |
| RunnerSafety.RestartBreaksScript | packages/adapters/src/codex-app-server.ts:421-443 | a second answer to an own handshake id makes the client send a handshake message again, for good |
| RunnerSafety.SentinelSkipsHandshake | packages/adapters/src/codex-app-server.ts:297-443 | the unset id -1 is a live id: a first response carrying it makes the client start a turn before it has initialized |
| NonInterference.InertIffForeign | packages/adapters/src/codex-app-server.ts:334-471 | a response or notification does nothing but surface itself if and only if the runner judges it foreign |
| NonInterference.UnissuedIsForeign | packages/adapters/src/codex-app-server.ts:398-451 | at any point of any run a response whose id was never issued, and is not -1, is foreign |
| NonInterference.StepIgnoresYields | packages/adapters/src/codex-app-server.ts:380-491 | what a step does never depends on what was yielded before |
| NonInterference.ForeignMessagesDoNotInterfere | packages/adapters/src/codex-app-server.ts:334-471 | foreign messages inserted anywhere are each surfaced exactly once, in order; all other frames, the conversation state and the terminal frame are those of the run without them |
| Machine.InsertionsAreErasable | packages/adapters/src/codex-app-server.ts:278-532 | inputs that only surface themselves can be erased from a run of any such machine without changing the rest |
| EventQueue.Queue.Push | packages/adapters/src/codex-adapter.ts:528-538 | an event is accepted if and only if the projected occupancy fits both ceilings; otherwise nothing but the overflow flag changes |
| EventQueue.Queue.ForcePush | packages/adapters/src/codex-adapter.ts:540-542 | the settlement path always appends |
| EventQueue.Queue.Close | packages/adapters/src/codex-adapter.ts:546-549 | closing unparks the consumer and changes no contents |
| EventQueue.Queue.Next | packages/adapters/src/codex-adapter.ts:551-570 | the consumer takes the oldest event in order across compaction, finishes only when closed and empty, and parks only when open and empty |
| EventQueue.Queue.Pop | packages/adapters/src/codex-adapter.ts:553-563 | the cursor stays below 1024 and compaction loses nothing; the retained size stays the sum of the unread |
| EventQueue.FirstSlot | packages/adapters/src/codex-adapter.ts:553-563 | the oldest live slot and its size come off the front of contents and total |
| CodexNormalizer.Normalizer.Settle | packages/adapters/src/codex-adapter.ts:295-351 | the terminal frame becomes the settlement its status, cap and answer dictate |
| CodexNormalizer.Normalizer.NormalizeItem | packages/adapters/src/codex-adapter.ts:386-430 | items become text, tool starts with their input and tool outputs with their rendering, and only a completed message is remembered |
| CodexNormalizer.Normalizer.NormalizeNotification | packages/adapters/src/codex-adapter.ts:366-445 | each notification method takes its own branch |
| CodexNormalizer.Normalizer.Normalize | packages/adapters/src/codex-adapter.ts:353-445 | one frame yields exactly the events its translation names, freshly numbered |
| CodexNormalizer.Normalizer.NormalizeRecord | packages/adapters/src/codex-adapter.ts:357-445 | a native record settles, is surfaced as foreign or unknown, or is a notification, by its tag and method |
| CodexNormalizer.Normalizer.Finalize | packages/adapters/src/codex-adapter.ts:449-463 | a stream without a terminal frame is closed failed, a terminated one adds nothing; what the session then ends with is SessionLaws.AnUnfinishedStreamFails |
| NormalizerLaws.NormalizerRemembers | packages/adapters/src/codex-adapter.ts:366-445 | over every feed of frames the normalizer remembers the last completed agent text, the last usage and the last error they streamed, and whether the turn started or ended |
| NormalizerLaws.OutcomeSettles | packages/adapters/src/codex-adapter.ts:295-351 | the settlement told by the frames: cancelled says whether any text was final, failed names the frame's error, else the last streamed one, completed carries the final text, its parsed and stripped body and the frame's usage, else the last streamed one, unless the text is over the byte cap |
| NormalizerLaws.ClaimIsRead | packages/adapters/src/codex-adapter.ts:295-360 | a record that carries the terminal tag is read field by field as the terminal frame |
| NormalizerLaws.ItemIsSaid | packages/adapters/src/codex-adapter.ts:386-430 | what each item notification says: text, tool start with name, input and kind, tool output with verdict, value and rendering, in this order, or a passthrough |
| NormalizerLaws.EachFrameIsSaid | packages/adapters/src/codex-adapter.ts:353-445 | in any stream each frame that does not end the session is said as what it is, by its tag and method: the start of the turn once, a delta or an item as such, and anything else as a passthrough under its name |
| NormalizerLaws.Utf8LengthIsSize | packages/adapters/src/codex-adapter.ts:310-325 | the size held against the cap is the number of bytes of the text in UTF-8 |
| CodexSession.TranslationShape | packages/adapters/src/codex-adapter.ts:353-445 | no frame is dropped; exactly the frames that are or claim to be terminal settle the session, in last place |
| CodexSession.Session.Send | packages/adapters/src/codex-adapter.ts:730-737 | one turn per session and none after a shutdown |
| CodexSession.Session.Shutdown | packages/adapters/src/codex-adapter.ts:739-752 | a shutdown closes the queue itself only when no turn was ever sent |
| CodexSession.Session.FailSession | packages/adapters/src/codex-adapter.ts:664-669 | a failure settles once, past the ceiling if need be |
| CodexSession.Session.EnqueueEvent | packages/adapters/src/codex-adapter.ts:670-689 | nothing follows a settlement, and an event over the ceiling is replaced by one failure |
| CodexSession.Session.EnqueueBatch | packages/adapters/src/codex-adapter.ts:693-697 | a batch is cut off where the ceiling settles the session |
| CodexSession.Session.FrameYielded | packages/adapters/src/codex-adapter.ts:691-698 | the object handles a yielded frame as the pump step says |
| CodexSession.Session.StreamEnded | packages/adapters/src/codex-adapter.ts:699-725 | an early end is finalized, and the queue closed |
| CodexSession.Session.TransportFailed | packages/adapters/src/codex-adapter.ts:700-725 | a throw before the terminal settles failed; after it, it is evidence only |
| CodexSession.Session.Take | packages/adapters/src/codex-adapter.ts:551-570 | the consumer takes exactly the next accepted event |
| CodexSession.Session.Drive | packages/adapters/src/codex-adapter.ts:659-728 | the session object, driven along any schedule of transport and consumer, is in the state the pump computes, and keeps its invariant |
| CodexSession.ExactlyOneSettlement | packages/adapters/src/codex-adapter.ts:659-728 | for every transport stream, ceiling and consumer: once closed there is exactly one session end, at most a teardown passthrough follows it, numbers strictly increase, failures are announced, and the backlog stays within the ceiling plus three |
| CodexSession.FinishingCloses | packages/adapters/src/codex-adapter.ts:691-728 | a transport that ends or throws always leads to a closed, settled stream |
| SessionLaws.SessionEndsForItsFirstCause | packages/adapters/src/codex-adapter.ts:659-728 | over every run the session ended for the first cause there was: a terminal frame, the buffer ceiling, the end of the stream or a throw, and its end says which; before that it has not ended |
| SessionLaws.AnUnfinishedStreamFails | packages/adapters/src/codex-adapter.ts:449-463 | a stream that ends before any terminal frame ends the session failed for want of one, a throw before it failed with its message, and either failed at the ceiling if that was reached first, each announced |
| SessionLaws.CompletedWasSaid | packages/adapters/src/codex-adapter.ts:659-728 | a session that ended completed was yielded a terminal frame, or a record that claims to be one, that says completed |
| SessionLaws.TeardownIsEvidence | packages/adapters/src/codex-adapter.ts:700-726 | over every run: once a session has ended, the end of the transport adds nothing and its failure adds one passthrough that says so |
| SessionCeiling.OverflowsIff | packages/adapters/src/codex-adapter.ts:670-689 | over every run, whatever the consumer took: a frame makes an open session overflow if and only if what is said of it does not fit, beside what is unread, into the ceilings on events and on bytes |
| SessionCeiling.EndOverflowsIff | packages/adapters/src/codex-adapter.ts:699-725 | and the end of the stream if and only if the two events of its failure do not fit |
| CodexSession.ClosedStays | packages/adapters/src/codex-adapter.ts:724-726 | nothing is accepted after the close |
| CodexEndToEnd.FeedIsExact | packages/adapters/src/codex-adapter.ts:691-698 | below the ceiling the pump accepts exactly the normalized frames, however the consumer interleaves |
| CodexEndToEnd.SessionReportsTurn | packages/adapters/src/codex-adapter.ts:659-728 | a finished turn pumped to its end settles once, reports all of it below the ceiling, ends as the terminal frame dictates, and never completed after an abort |
| CodexEndToEnd.SessionIsUndisturbed | packages/adapters/src/codex-adapter.ts:353-365 | foreign messages inserted into the transport reach the normalizer only as one passthrough each; everything else it says, and the state it ends in, is unchanged |
| CodexEndToEnd.OutcomeIsUndisturbed | packages/adapters/src/codex-adapter.ts:353-365 | the sessions of the disturbed and the undisturbed turn both settle once, as the undisturbed turn dictates, or failed at the buffer ceiling if they reached it; when both or neither do, they end with the same last event |
| CodexEndToEnd.ForeignResponseInertIffUnclaimed | packages/adapters/src/codex-adapter.ts:353-360 | a surfaced record is inert if and only if it does not carry the terminal tag; with the tag it ends the session |
| CodexEndToEnd.ATaggedResponseChangesTheOutcome | packages/adapters/src/codex-adapter.ts:353-360 | where it falls short: one foreign response with the tag makes the session of a turn that failed say completed |
| CodexEndToEnd.StructuredOutputIsValid | packages/adapters/src/codex-adapter.ts:336-350 | a completed body that the sent schema admits is one the requested schema admits, if that schema is strip-safe or the body answers for a branch of its root union |
| SchemaSoundness.RewriteIsSoundIff | packages/adapters/src/codex-exec.ts:134-192 | where unions tell their branches apart, a value valid under the rewritten schema is, once stripped, valid under the original if and only if no required key of it, at any depth that survives, is null or missing |
| SchemaSoundness.DiscriminatorTellsApart | packages/adapters/src/codex-exec.ts:134-192 | a discriminated union tells its branches apart, and they exclude one another |
| SchemaSoundness.SoundNode | packages/adapters/src/codex-exec.ts:134-192 | with unions too, whatever keeps its required keys is sound |
| SchemaSoundness.RewriteIsSound | packages/adapters/src/codex-exec.ts:134-192 | on schemas whose required properties do not admit null, everything valid under the rewritten schema is, once stripped, valid under the original; a root union that is lowered has its own condition below |
| SchemaSoundness.StripIsNullFree | packages/adapters/src/codex-exec.ts:183-192 | stripping yields null-free values and leaves exactly those alone |
| SchemaSoundness.NullableAdmitsNoMore | packages/adapters/src/codex-exec.ts:52-67 | making a schema nullable admits null and nothing else new |
| SchemaSoundness.RequiredNullIsLost | packages/adapters/src/codex-exec.ts:183-192 | where it fails: a required property that may be null is admitted null by both schemas, and the value is no longer valid after stripping |
| SchemaRootUnion.LoweringIsSoundIff | packages/adapters/src/codex-exec.ts:69-107 | a value valid under the lowered root is, once stripped, a value of the root union if and only if it answers for some branch: it has what the branch requires and meets its other keywords, and its other keys fit the branch or are open to it |
| SchemaRootUnion.AgreesWhen | packages/adapters/src/codex-exec.ts:69-107 | the branches may share a key whose schema is the same in both, or plain as a discriminator is, or told apart by its values |
| SchemaRootUnion.LoweringIsSoundWhenChosen | packages/adapters/src/codex-exec.ts:69-107 | answering for a branch is enough, whatever keys the branches share and whatever unions their properties hold |
| SchemaRootUnion.LoweredRootAdmitsNoBranch | packages/adapters/src/codex-exec.ts:69-107 | where it fails: a value valid under the lowered root that answers for no branch |
| SchemaCompleteness.RewriteIsComplete | packages/adapters/src/codex-exec.ts:69-192 | for oneOf and root object unions too, every null-free value that keeps to declared keys has an encoding valid under the rewritten schema that strips back to it, if no other keyword of an object, array or union minds the added nulls and no union stands beside other structure |
| SchemaCompleteness.Encode | packages/adapters/src/codex-exec.ts:134-174 | the same below the root, under the same condition |
| SchemaCompleteness.MergeKeeps | packages/adapters/src/codex-exec.ts:69-107 | merging the branches of a root union keeps every alternative of every key |
| SchemaNormalForm.RewriteIsStrict | packages/adapters/src/codex-exec.ts:134-174 | every rewritten schema requires all its keys and has no oneOf, is closed throughout where additionalProperties is absent, empty or false, and a root anyOf of objects is gone |
| SchemaNormalForm.SanitizeIsFixed | packages/adapters/src/codex-exec.ts:134-174 | below the root, rewriting twice is rewriting once |
| SchemaNormalForm.RewriteIsIdempotentIff | packages/adapters/src/codex-exec.ts:69-174 | at the root too, if and only if no oneOf of objects was turned into a root union |
| GitPaths.UnquoteBytes | packages/adapters/src/git-range-diff.ts:251-283 | the character loop with its own cursor computes the decoding |
| GitPaths.UnquoteUndoesQuote | packages/adapters/src/git-range-diff.ts:251-283 | for every byte string, quoting by the default core.quotePath rules and unquoting gives the bytes back |
| GitPaths.UnquoteUndoesRawQuoteIff | packages/adapters/src/git-range-diff.ts:251-283 | where it falls short: a path quoted with core.quotePath off comes back as its UTF-8 bytes if and only if no character of it is a surrogate pair, because each half is encoded alone |
| GitPaths.UnprefixRecovers | packages/adapters/src/git-range-diff.ts:286-292 | both spellings of a header path, bare and quoted, come back as the path |
| GitRecords.ParseChangedPaths | packages/adapters/src/git-range-diff.ts:184-206 | the index-cursor loop computes the changed paths of the fields; that they are those Git printed is GitRecords.NameStatusRoundTrip |
| GitRecords.ParseCounts | packages/adapters/src/git-range-diff.ts:208-231 | the index-cursor loop computes the counts by path |
| GitRecords.NameStatusRoundTrip | packages/adapters/src/git-range-diff.ts:184-206 | parsing a printed name-status listing, renames, copies and any path without NUL included, gives back each change in order with the status its kind calls for |
| GitRecords.NumstatRoundTrip | packages/adapters/src/git-range-diff.ts:208-231 | parsing a printed numstat listing gives each path its own counts and no other path any, if no path but a rename has a tab in it |
| GitRecords.JoinIsExact | packages/adapters/src/git-range-diff.ts:497-518 | under the same condition every changed path finds its own numstat entry, and only a binary file is called binary |
| GitRecords.ABrokenOffRenameKeepsItsCounts | packages/adapters/src/git-range-diff.ts:214-219 | a listing that breaks off before a rename's new name still gives the file its counts |
| GitRecords.ATabbedPathIsCalledBinary | packages/adapters/src/git-range-diff.ts:214-228 | where it falls short: a path with a tab in it, not a rename, never finds its counts, so its file is called binary whatever it is |
| UnifiedDiff.ParseBlock | packages/adapters/src/git-range-diff.ts:325-385 | the line loop with the latching hunk flag computes the scan of a block |
| UnifiedDiff.ParseUnifiedDiffFiles | packages/adapters/src/git-range-diff.ts:302-415 | the result is the path-sorted list of the coalesced blocks |
| UnifiedDiff.FileListIsUnique | packages/adapters/src/git-range-diff.ts:398-414 | that list is determined by the blocks alone |
| DiffEntries.EntriesAreOfTheirBlocks | packages/adapters/src/git-range-diff.ts:388-397 | for any blocks at all, a path has an entry if and only if a block names it: the sums of their counts, binary if one is, all their texts in order, the first former path named; one block has its own status, several make a modified file |
| DiffEntries.FileSays | packages/adapters/src/git-range-diff.ts:398-414 | a file has no counts if it is binary, a former path only if it was renamed, and the texts of its blocks with a line feed between each two |
| DiffEntries.BinaryMeans | packages/adapters/src/git-range-diff.ts:382-385 | a block is binary if and only if between two line ends, or a line end and an end of it, stands the patch mark or the sentence about two files |
| UnifiedDiffRoundTrip.BodyOnlyCounts | packages/adapters/src/git-range-diff.ts:343-370 | once in a hunk, lines only count, each by its first character |
| UnifiedDiffRoundTrip.BodyCannotInfluenceMetadata | packages/adapters/src/git-range-diff.ts:343-370 | two blocks that share a preamble agree on status and paths whatever their hunks contain |
| UnifiedDiffRoundTrip.SplitsIff | packages/adapters/src/git-range-diff.ts:307-388 | a printed diff splits into the texts of its patches if and only if no hunk line reads as a block header after a carriage return or a Unicode separator in it, and a text is a binary file if and only if one reads as a binary mark there |
| DiffBlocks.SplitConcatIff | packages/adapters/src/git-range-diff.ts:307-307 | texts that begin a block and end a line are what their concatenation splits into if and only if none has a block start inside |
| DiffHazards.AnAddedLineHidesItsFile | packages/adapters/src/git-range-diff.ts:382-388 | where it falls short: one added line with a binary mark after a carriage return makes its file binary, its counts gone |
| DiffHazards.AnAddedLineInventsAFile | packages/adapters/src/git-range-diff.ts:307-381 | where it falls short: one added line with a block header after a carriage return makes any file it names appear in the diff |
| UnifiedDiffRoundTrip.NamesAreReadIff | packages/adapters/src/git-range-diff.ts:325-381 | a printed patch comes back with its status and counts, whatever its hunk lines contain up to the line feed, and with its path and former path if and only if the lines naming them are readable: a deleted, empty or mode-only file has no space in its path, a path on a rename line no a/ or b/ directory, and no unquoted path a space at its end |
| UnifiedDiffRoundTrip.ADeletedNameWithASpaceIsLost | packages/adapters/src/git-range-diff.ts:371-379 | a deleted file with a space in its name is not found under that name |
| GitHeaders.HeaderReadIff | packages/adapters/src/git-range-diff.ts:373-379 | the greedy header split reads the second path if and only if it has no space, quoted or not |
| GitHeaders.ReadPrefixedIff | packages/adapters/src/git-range-diff.ts:286-292 | a prefixed path, bare or quoted, comes back if and only if it is quoted or does not end in a space |
| GitHeaders.ReadWholeIff | packages/adapters/src/git-range-diff.ts:352-356 | a path on a rename line comes back if and only if it begins with no a/ or b/ and has no bare space at an end |
| UnifiedDiffRoundTrip.ParseUndoesPrint | packages/adapters/src/git-range-diff.ts:302-415 | parsing a printed diff of readable and harmless patches gives exactly one file per printed path, sorted, with its status, former path and counts; several patches of one path become one modified file with their sums and both texts |
| UnifiedDiffRoundTrip.ParsePrinted | packages/adapters/src/git-range-diff.ts:302-415 | the parsing method itself, run on a printed diff, returns that list |
| BaselineWatch.Coordinator.Notified | packages/adapters/src/baseline-advance-watcher.ts:84-91 | a notification schedules the one timer unless cancelled |
| BaselineWatch.Coordinator.Cancelled | packages/adapters/src/baseline-advance-watcher.ts:99-105 | a cancel closes and clears the timer |
| BaselineWatch.Coordinator.TimerFired | packages/adapters/src/baseline-advance-watcher.ts:112-125 | a fired timer starts a drain, marks a running one dirty, or does nothing when closed |
| BaselineWatch.Coordinator.IterationEnds | packages/adapters/src/baseline-advance-watcher.ts:127-143 | the drain goes round if and only if dirty and open |
| BaselineWatch.Coordinator.DrainSettles | packages/adapters/src/baseline-advance-watcher.ts:120-124 | a settled drain is no longer running |
| BaselineWatch.CoordinatorSafety | packages/adapters/src/baseline-advance-watcher.ts:83-143 | from any stored oid, over every interleaving: at most one drain runs, an open watch that was not left behind has its store at the tip or an event, a timer, the dirty flag or an iteration that will still see the tip, passes never outnumber notifications, and at most one starts after a cancel |
| BaselineWatch.QuiescentIsCurrent | packages/adapters/src/baseline-advance-watcher.ts:83-143 | when nothing is left to happen in an open watch, the stored oid is the tip if and only if the last iteration did not fail over a stale store and, had the store been stale from the start, one ran; whatever failed before it |
| BaselineWatch.IdleCancelIsFinal | packages/adapters/src/baseline-advance-watcher.ts:99-113 | after a cancel with no drain in flight no pass ever starts |
| BaselineWatch.NextMovementRepairs | packages/adapters/src/baseline-advance-watcher.ts:83-143 | from any quiescent open state, left behind or not, the next movement and one undisturbed drain bring the store to the tip |
| BaselineWatch.FailedPassIsForgotten | packages/adapters/src/baseline-advance-watcher.ts:137-142 | where it falls short: an iteration that fails leaves the store behind with nothing scheduled |
| BaselineWatch.NoMovementNoWork | packages/adapters/src/baseline-advance-watcher.ts:112-143 | at every step of any state: a pass begins if and only if a drain finds another tip than the stored one, the store changes only when a pass lands and then to the tip it read, and a drain begins if and only if the timer fires in an open watch with none running |
| TokenRotation.RotationSafety | packages/adapters/src/github-auth.ts:262-302 | for any interleaving and any faults under the lock, a refresh token is replayed exactly when presented after a lost rotation, and otherwise the store outside the section is the latest pair, still honoured |
| TokenRotation.ConsumedIsNeverPresentedAgain | packages/adapters/src/github-auth.ts:262-302 | when a network error means no rotation and every write lands, a consumed refresh token is never presented again and the store outside the section is the latest pair |
| TokenRotation.AtMostOneExchange | packages/adapters/src/github-auth.ts:310-383 | each resolution performs at most one exchange, proactive or reactive, with or without the lock |
| TokenRotation.CliStaysAuthoritative | packages/adapters/src/github-auth.ts:310-327 | once the CLI answered, no step of that resolution touches the store, the lock or the forge, and its outcome is about the CLI token |
| TokenRotation.WithoutTheLockARaceReplays | packages/adapters/src/github-auth.ts:269-269 | without a lock two resolutions present one refresh token, with no fault at all |
| TokenRotation.ALostRotationReplays | packages/adapters/src/github-auth.ts:277-301 | one fault alone, an answer that is not heard or a pair that cannot be written, makes the next renewal present the dead token |
| TokenRotation.StepKeepsInv | packages/adapters/src/github-auth.ts:262-383 | every step keeps the lock discipline and the relation between store, forge and section; which credential a renewal goes on with is TokenAnswers.AnswersAreAboutTheClaim |
| TokenAnswers.AnswersAreAboutTheClaim | packages/adapters/src/github-auth.ts:262-383 | at every step of every run, with or without the lock: a resolution answers if and only if there is that very reason to, a verdict is about the credential it stands for (the CLI token, what it first read of the store, what the store said when it reread it, or what its own rotation minted), answers are final, and it renews, goes on to be judged and is sent to the forge exactly when it should |
| TokenAnswers.AnswersWhatItLeftWith | packages/adapters/src/github-auth.ts:341-380 | over every run: a resolution that left the section with a credential answers, if ever, about the token the store held when it left, the minted one or the other caller's |
| TokenAnswers.EveryAnswerHasItsCause | packages/adapters/src/github-auth.ts:310-383 | over every run: an answer in hand was given at some step for its reason, about the credential stood for at that step |
| TokenAnswers.TheClaimIsPresentedAndStored | packages/adapters/src/github-auth.ts:269-301 | over every run: the refresh token presented is that of the credential stood for, and the credential written is the minted one |
| GitLabPublish.AtMostOneNote | packages/adapters/src/gitlab-forge.ts:467-487 | over any sequence of attempts in which each request may fail before or after it took effect, at most one note carries the marker |
| GitLabPublish.WritesFollowAMatchingHead | packages/adapters/src/gitlab-forge.ts:504-522 | every note and approval is preceded, in its own attempt, by a head read equal to the reviewed head |
| GitLabPublish.SuccessIsComplete | packages/adapters/src/gitlab-forge.ts:524-581 | a finished publication has its note with the marker and, for an approval, the viewer among the approvers, unless somebody removed one |
| GitLabPublish.RetryCompletes | packages/adapters/src/gitlab-forge.ts:524-581 | from whatever earlier attempts left, one attempt with no lost request finishes with exactly one marked note and the approval |
| GitLabPublish.RetryWritesOnlyWhatIsMissing | packages/adapters/src/gitlab-forge.ts:524-581 | with no lost request an attempt writes the note if and only if no note carries the marker, and the approval if and only if one is asked for and not both the note and the approval were there |
| GitLabPublish.ReuseIsReported | packages/adapters/src/gitlab-forge.ts:524-581 | over any run: an attempt writes at most one note and at most one approval, the latter only if asked for, and says it reused a note if and only if it wrote none |
| GitLabPublish.ViewerIsAskedOnce | packages/adapters/src/gitlab-forge.ts:255-271 | over all attempts the viewer, once known, stays known and is not asked for again |
| GitHubPublish.FindExistingReview | packages/adapters/src/github-publish.ts:239-268 | the page loop finds the first marked review of at most twenty pages, reports none only after the last page or the twentieth, and takes an attempt where the machine below takes it |
| GitHubPublish.ScanIsThePageLoop | packages/adapters/src/github-publish.ts:239-300 | however the forge changes between the requests, a scanning attempt is at every point where the page loop, given the same answers, would be |
| GitHubPublish.AtMostOneReview | packages/adapters/src/github-publish.ts:277-300 | over any sequence of attempts with lost requests at most one of the first two thousand reviews is marked, so at most one while there are no more |
| GitHubPublish.ReviewsFollowAMatchingHead | packages/adapters/src/github-publish.ts:282-288 | a review is created only after a head read equal to the reviewed head in the same attempt |
| GitHubPublish.ScanIsExact | packages/adapters/src/github-publish.ts:239-300 | an undisturbed attempt posts if and only if none of the first two thousand reviews is marked |
| GitHubPublish.DuplicatesExactlyBeyondTheBound | packages/adapters/src/github-publish.ts:245-248 | an attempt whose marker is already published duplicates it if and only if no marked review is among the first two thousand, because the oldest are read first |
| Publication.VouchedMeans | packages/adapters/src/gitlab-forge.ts:504-522 | what the log predicate says: an index at which the matching head was read, with no new attempt in between |
| ParsedFileCaches.ParsedFileCache.Get | packages/adapters/src/parsed-file-cache.ts:28-38 | a hit exactly when the file is unchanged since it was memoized; a stale entry is dropped, a live one becomes the newest |
| ParsedFileCaches.ParsedFileCache.Put | packages/adapters/src/parsed-file-cache.ts:49-59 | the value is memoized against the current file and the coldest entries beyond the limit are dropped |
| AskLog.AskLogStore.ReadState | packages/adapters/src/ask-log-store.ts:106-158 | absent, trusted or corrupt, exactly as the file says |
| AskLog.AskLogStore.CheckStamps | packages/adapters/src/ask-log-store.ts:140-156 | the loop accepts a log if and only if event i has seq i and the own session id |
| AskLog.OnlyStampedLogsAreTrusted | packages/adapters/src/ask-log-store.ts:106-158 | a log is trusted if and only if its file is a version 1 document whose event i has seq i and the own session id, and absent only without a file |
| AskLog.AskLogStore.GetLog | packages/adapters/src/ask-log-store.ts:163-176 | a hit or a fresh parse is the file now on disk; a corrupt file is refused and never memoized |
| AskLog.AskLogStore.Read | packages/adapters/src/ask-log-store.ts:180-184 | the events on disk, or the refusal of a corrupt log |
| AskLog.AskLogStore.ReadProjection | packages/adapters/src/ask-log-store.ts:187-191 | the projection equals the full fold of the events on disk, however it was come by |
| AskLog.AskLogStore.AppendMany | packages/adapters/src/ask-log-store.ts:238-262 | the log becomes the old events followed by the stamped batch, no other session changes, and a corrupt log is refused and left as it is |
| AskLog.AskLogStore.Append | packages/adapters/src/ask-log-store.ts:225-231 | one event lands last with the next number |
| AskLog.AskLogStore.ForeignWrite | packages/adapters/src/ask-log-store.ts:163-176 | another writer may land or remove any file, trusted or not, and the store still answers from the disk |
| AskLog.AppendIsStamped | packages/adapters/src/ask-log-store.ts:242-245 | appending keeps event i at seq i with its session id, whatever the batch |
| AskLog.FoldAppend | packages/adapters/src/ask-log-store.ts:251-260 | extending a projection by the appended events is folding the whole log |
| AskLog.PutIsCoherent | packages/adapters/src/ask-log-store.ts:252-260 | a written-through entry keeps every memoized state faithful to its file |
| DurableReplace.CrashKeepsOldOrNew | packages/adapters/src/ask-log-store.ts:193-217 | a crash after any of the five calls leaves the old log or what the write stored of the new one; the old before the rename, the new after the return |
| DurableReplace.WholeExactlyWhenFullyWritten | packages/adapters/src/ask-log-store.ts:200-206 | the log is always whole, old or new, if and only if the single write call stored the whole text, which the code does not check |
| DurableReplace.WithoutTheFirstSyncACrashTears | packages/adapters/src/ask-log-store.ts:203-203 | renaming before the file is synced lets a crash leave neither log |
| DurableReplace.WithoutTheSecondSyncAnAppendIsLost | packages/adapters/src/ask-log-store.ts:211-216 | returning before the directory is synced lets a crash lose an append |
| RootedHost.ValidateRelativePath | packages/adapters/native/rooted-landing-host.c:141-168 | the byte loop accepts a path if and only if every component is proper and no backslash occurs |
| RootedLaws.NormalMeans | packages/adapters/native/rooted-landing-host.c:141-168 | a path is accepted if and only if nowhere in it two slashes, or a slash and an end, have nothing, one dot or two dots between them, and it has no backslash |
| RootedHost.OpenParent | packages/adapters/native/rooted-landing-host.c:265-316 | the walk opens the parent directory or says why not, following no link |
| RootedHost.RemoveEntry | packages/adapters/native/rooted-landing-host.c:585-645 | a name is removed from its directory, with everything inside it if the removal is recursive; otherwise a directory that holds something is refused and stays |
| RootedHost.RemoveInside | packages/adapters/native/rooted-landing-host.c:596-631 | the scan of a directory removes everything inside, in whatever order it is read, and never fails for what an inner directory still holds |
| RootedHost.Host.EnsureParent | packages/adapters/native/rooted-landing-host.c:318-372 | missing directories are made outermost first, or nothing is changed |
| RootedHost.Host.Materialize | packages/adapters/native/rooted-landing-host.c:1112-1231 | a worker leaf is copied where nothing is; a failed copy leaves the tree as it was; when it succeeds and what it leaves is RootedLaws.MaterializesIff |
| RootedHost.Host.Move | packages/adapters/native/rooted-landing-host.c:1233-1277 | a rename that replaces nothing and never moves a directory into itself |
| RootedHost.Host.Remove | packages/adapters/native/rooted-landing-host.c:1279-1316 | a path is cut, empty or recursively; a missing one is already removed |
| RootedHost.Host.RemoveEmptyParents | packages/adapters/native/rooted-landing-host.c:1318-1349 | the shrinking-path loop removes empty or missing parents and stops at the first that holds something |
| RootedHost.Host.RemoveEmptyDirectory | packages/adapters/native/rooted-landing-host.c:1359-1415 | one directory is removed exactly when it is empty |
| RootedSafety.LeavesAreKept | packages/adapters/native/rooted-landing-host.c:318-1415 | no operation but a removal deletes or alters a leaf: each stays, or goes where a move takes it, with its content |
| RootedSafety.NoLeafIsInvented | packages/adapters/native/rooted-landing-host.c:1112-1231 | every leaf afterwards was there before, or is at the destination of a materialization and is a copy of the worker leaf, bytes and all |
| RootedSafety.TrackIsInjective | packages/adapters/native/rooted-landing-host.c:1233-1277 | two leaves never end up at one path |
| RootedSafety.RunsKeepLeaves | packages/adapters/native/rooted-landing-host.c:1077-1415 | over any run of operations every leaf is still there with its content at the path the moves took it to; it is lost if and only if a successful removal named it, or a directory above it, where it then was |
| RootedSafety.RunsKeepLeavesApart | packages/adapters/native/rooted-landing-host.c:1233-1277 | over any run distinct leaves stay at distinct paths |
| RootedSafety.EnsuredKeeps | packages/adapters/native/rooted-landing-host.c:318-372 | ensuring a parent keeps every leaf and directory and adds only directories on the path |
| RootedSafety.NoEmptyParentIsLeft | packages/adapters/native/rooted-landing-host.c:1318-1349 | afterwards no directory above the path is empty, the root aside, which stays a directory |
| RootedSafety.PrunedKeeps | packages/adapters/native/rooted-landing-host.c:1318-1349 | removing empty parents keeps the leaf set |
| RootedLaws.OpenFailsIff | packages/adapters/native/rooted-landing-host.c:265-316 | opening the directories of a path fails if and only if one of its prefixes is the first that is no directory, and the error says whether it is missing, a link or something else |
| RootedLaws.MaterializesIff | packages/adapters/native/rooted-landing-host.c:1112-1231 | told by the trees: done if and only if both parents are directories, the worker leaf is a file or, in symlink mode, a link, nothing is at the destination and the copy completes; then the destination holds a file with the same bytes and the mode asked for, or the same link, and everything else is as it was |
| RootedLaws.MovesIff | packages/adapters/native/rooted-landing-host.c:1233-1277 | moved if and only if the source is there, the parent of the destination is a directory, nothing is at the destination and it is not inside the source; then all of it is found there and nowhere else |
| RootedLaws.RemovesIff | packages/adapters/native/rooted-landing-host.c:1279-1316 | a removal is refused if and only if a link is in the way or, not being recursive, the directory holds something; after it nothing is found at the path and everything else still is |
| RootedLaws.RemovesDirectoryIff | packages/adapters/native/rooted-landing-host.c:1359-1415 | removed if and only if it is there and empty, and each error has its own reason |
| RootedLaws.EnsuresIff | packages/adapters/native/rooted-landing-host.c:318-372 | done if and only if nothing but a directory is on the way; then all the directories are there |
| RootedLaws.PrunesOnlyTheHollow | packages/adapters/native/rooted-landing-host.c:1318-1349 | only directories of the path with nothing but each other below them are removed, and nothing is added |
| RootedLaws.PruningFailsIff | packages/adapters/native/rooted-landing-host.c:1318-1349 | it fails if and only if a link is on the way to the deepest parent |
| Manifest.CollectLeaves | packages/adapters/native/rooted-landing-host.c:518-583 | every non-directory below a directory is collected once, in whatever order it is read |
| Manifest.LeafPaths | packages/adapters/native/rooted-landing-host.c:998-1075 | the listing is strictly sorted and holds exactly the leaves at or below the path; only a link on the way stops it |
| Manifest.ComponentsDetermine | packages/adapters/native/rooted-landing-host.c:499-510 | two joined paths with the same components are the same string |
| FileTree.FindPut | packages/adapters/native/rooted-landing-host.c:1112-1231 | putting one entry changes what is found at and below its path and nothing else |
| FileTree.FindCut | packages/adapters/native/rooted-landing-host.c:585-645 | cutting one entry removes what is at and below its path and nothing else |
| ExcludeRule.ContainsRule | packages/adapters/native/rooted-landing-host.c:1423-1434 | the byte scan finds the rule if and only if a line says it, a final carriage return aside |
| ExcludeRule.HasMeans | packages/adapters/native/rooted-landing-host.c:1418-1434 | a file has a one-line rule if and only if the rule, or the rule and a carriage return, stands in it between line feeds or an end |
| ExcludeRule.OutcomeMeans | packages/adapters/native/rooted-landing-host.c:1444-1524 | installed if and only if the rule is one line, was missing, was stored whole on a line of its own and synced; a rule that is no line, or is there, writes nothing |
| ExcludeRule.ExcludeFile.Ensure | packages/adapters/native/rooted-landing-host.c:1444-1524 | the file grows by what the writes stored of the addition, and the outcome says so |
| ExcludeRule.ExcludeFile.Install | packages/adapters/native/rooted-landing-host.c:1495-1502 | the three appends store a prefix of the addition, all of it exactly when they succeed |
| ExcludeRule.AppendAddsWhatWasStored | packages/adapters/native/rooted-landing-host.c:1495-1502 | beyond what the file said, a call adds exactly the part of the rule it stored |
| ExcludeRule.SuccessAddsExactlyTheRule | packages/adapters/native/rooted-landing-host.c:1483-1517 | after success any rule is present if and only if it was before or is the requested one |
| ExcludeRule.FailureAddsExactlyWhatWasStored | packages/adapters/native/rooted-landing-host.c:1483-1517 | after a torn write a rule is present if and only if it was before or is the stored part of the requested one |
| ExcludeRule.AppendOnlyAndIdempotent | packages/adapters/native/rooted-landing-host.c:1483-1517 | old bytes stay a prefix, and a call after a success writes nothing |
| ExcludeRule.AtMostOnceInTotal | packages/adapters/native/rooted-landing-host.c:1483-1517 | callers that take turns under the lock add the rule at most once between them, whatever each managed to store |
| ExcludeRule.WithoutTheLockItIsAddedTwice | packages/adapters/native/rooted-landing-host.c:1483-1490 | two callers that both looked before either appended would add it twice |
| ExecEvidence.RunTurn | packages/adapters/src/exec-observing-turn.ts:81-158 | the drain loop stops at the first terminal event and concludes from the events before it |
| ExecEvidence.Collect | packages/adapters/src/exec-observing-turn.ts:126-141 | the loop over the records fills both lists with what the events account for |
| ExecEvidence.Partition | packages/adapters/src/exec-observing-turn.ts:89-141 | every exec call id is reported as run, reported as incomplete, excluded, or was never started, exactly one of these, and at most once |
| ExecEvidence.ReportedInStartOrder | packages/adapters/src/exec-observing-turn.ts:89-141 | both lists follow the order of first starts |
| ExecEvidence.LastOutputMeans | packages/adapters/src/exec-observing-turn.ts:105-113 | the verdict is that of the last output after a start, and there is none exactly when no output followed a start |
| ExecEvidence.NothingReported | packages/adapters/src/exec-observing-turn.ts:136-141 | no execution is reported exactly when no exec call id was started once |
| EvidenceLaws.ReportIsExact | packages/adapters/src/exec-observing-turn.ts:89-141 | told by positions in the events: the run list holds exactly the calls started once with an output after, the incomplete list exactly those without, each in start order, each with the line of its start and the verdict and tail of its last output; without a report no call was started once |
| EvidenceLaws.ConcludesIff | packages/adapters/src/exec-observing-turn.ts:115-150 | a body is emitted if and only if the turn completed with one, with its usage and report; each other end fails with its own reason |
| ExecEvidence.Tail | packages/adapters/src/exec-observing-turn.ts:47-49 | the tail is the whole text or its last 800 characters |

## Left out

- Real processes, sockets, Git, GitHub and GitLab transport, zod schemas, octokit, execa and N-API plumbing: they are steps that may fail.
- Wall-clock time: the interrupt grace timer, debounce milliseconds and token expiry dates; "near expiry" is an input of the resolution, and timers may fire whenever no promise continuation is due.
- JSON numbers are integers; a fractional id behaves like a foreign one, and NaN and infinities do not occur.
- Strings are sequences of code units, and code-unit order is character order on the basic plane; a character beyond it stands for its surrogate pair.
- Request parameter bodies, the bodies of server-request answers and the native error class table: requests keep their id and method, errors keep their origin and message.
- CodexNormalizer.Normalizer.NormalizeNotification: `session.started` carries no model or directory.
- CodexAppServer.TurnRunner.AbortFired: an abort while the consumer still holds the terminal frame, before it asks for more and the listener is detached, is ignored here; the code may then still send an interrupt to a child it is about to kill.
- The generator's consumer walking away, and the abandoned generator's cleanup.
- `JSON.stringify` and `JSON.parse` are parameters of the turn; a tool call without an id gets a random one, which stays unnamed.
- A schema's property order and keywords other than those named above; a property whose name collides with a keyword. Leaf meanings (`type`, `enum` and the rest) are a parameter of the denotation.
- The final UTF-8 decoding of quoted paths and the truncation of visible patches are parameters; content hashes and `localeCompare` order are not part of this model.
- UnifiedDiffRoundTrip.ParseUndoesPrint: the printer prints no binary and no combined patches, and always both `a/` and `b/` prefixes.
- Paths with NUL, which no file system allows, and numstat listings in which a path that is not a rename begins with a tab, which takes the next two records for its name.
- `Number()` of a numstat field that is not decimal is left unread.
- Sorting (`Array.sort`, `qsort`) is an insertion, which gives the one sorted list; its running time is not modelled.
- BaselineWatch.QuiescentIsCurrent: the stored oid moves only by the coordinator's own passes, though it may start anywhere.
- SchemaCompleteness.RewriteIsComplete: a union with properties, items or a type beside it, and a root with both union keywords, because the node then means their conjunction; a null-typed node whose other keyword refuses null, because the rewrite takes it for nullable.
- SchemaSoundness.RewriteIsSoundIff: a union whose branches share values has only the sufficient half, `SchemaSoundness.SoundNode`; the same below a lowered root.
- SchemaRootUnion.LoweringIsSoundIff: a root with properties, items or `required` of its own beside the union, and branches with a union of their own at the top or a schema other than `{}` for undeclared keys.
- Account changes (sign-in, paste, disconnect) take effect in one step while nobody holds the lock; a crash of the whole daemon in the middle of an exchange is not modelled.
- A resolution that was given no refresh exchange at all, where an expiring credential simply dies.
- The forge's own scope and single-sign-on judgements of a token are one verdict.
- GitLabPublish.AtMostOneNote: attempts follow one another, a search reads all notes at one moment, a request takes effect before the next one is sent or not at all, and nobody else writes the marker.
- GitHubPublish.AtMostOneReview: likewise; reviews are never deleted or reordered.
- `extractMarker` is taken to recover the marker a body was written with; `buildReviewRequest` contributes only which requests are sent.
- AskLog.AskLogStore.AppendMany: one process writes at a time; a foreign write that lands between a write and its stamp is memoized under the wrong value, as `parsed-file-cache.ts` says of itself.
- File names of sessions: `encodeURIComponent` keeps distinct sessions apart, so a session stands for its file.
- The fold's step `applyAskEvent` is a parameter; receipts are not part of this model.
- The JSON rendering of the log document: its replacement works on one text, of which a write call stores a prefix.
- In the rooted host: permissions, I/O errors other than a copy that fails half way, other processes changing the tree during an operation, hard links, and the status texts of `inspect`, `move` and `removeEmptyDirectory`; errors are kept as their numbers.
- Descriptors, buffers that grow and memory exhaustion of the native host: the tree and the strings are values, so leaks and aliasing are not captured.
- ExcludeRule.ExcludeFile.Ensure: opening, locking and inspecting the file cannot fail; taking turns under the lock is the order of the calls.
- `createCodexExecutor` and its inventory of tool servers; closing the session after an observed turn.
- Claude frame mapping, forge discovery, settings, project and board stores, spec readers, device flow, `ensureManagedClone`, and all user interface code: case tables or thin I/O that would add only easy members.
