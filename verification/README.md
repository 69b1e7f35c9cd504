# GDB/AI in Dafny

A model of the state machines and codecs that GDB/AI, a debugger server written in Rust, rests on,
and proofs of what they promise over every input, every run and every interleaving.
`dafny verify dfyconfig.toml` checks all of it.

## What is modelled

**Event-sourced session state.** `Domain` holds the session state, its events and the construction
of public handles. `Reducer` says what each of the 41 event kinds does to a state; `LiveReducer` is
the reducer class that updates the state in place, proved equal to it. `SessionRuns` defines a run
(any sequence of numbered events and fail-closed calls on a fresh session) and the invariants every
run keeps. On these stand `RevisionFence`, `PublicHandles`, `BreakpointHandles`, `Waits`,
`Limitations` and `Taint`.

**Journal and replay.** `Journal` is the byte-bounded writer, `Replay` the streaming replayer
against a meaning stated over the whole list of entries, and `Truncation` joins the live reducer,
the journal and the replayer: whatever byte limit cuts the journal, replay of what is left succeeds,
and it reaches the live state at the cut exactly when the cut is faithful.

**The GDB/MI codec.** `MiSyntax`, `MiStrings` and `MiGrammar` state the grammar (the "GDB/MI Output
Syntax" section of the GDB manual) as functions of the input and an offset, errors included.
`MiParser` is the parser with its moving offset and its span-copying string decoder. `MiPrinter`
prints records; the parser inverts it. `MiLegacy` covers the MI3 spelling of breakpoint scripts,
`MiFramer` the incremental framer.

**Gateway concurrency.** `SharedReads`, `Idempotency` and `Operations` are state machines whose
steps are single lock-protected regions or single atomic accesses. Their theorems quantify over
every finite sequence of steps by any number of tasks.

**Bounded evidence storage.** `Ring` and `Spool` are the PTY ring and its spool against the ideal
byte stream. `Artifacts` states registration, pruning and deletion with their crash points;
`ArtifactStore` is the store class that performs them. `FiniteSums` supplies sums over finite sets.

**Contract compiler.** `JsonSchema` is the needed part of JSON Schema draft 2020-12 (sections 6.1,
6.2, 6.4 and 6.5 of the Validation document, sections 10.2 and 10.3 of Core) over JSON values.
`Contracts` holds the contract tree, its runtime reading and its compiled schema.

`Text` holds decimal formatting and the key order of B-tree maps.

## What turned out not to hold

Each of these has an input or run that shows it and a statement of exactly when the property holds.

- The list of limitations is meant to hold at most 64 entries. A list full of evidence gaps has no
  truncation marker, and the next limitation appends the marker as entry 65. The true bound is 65
  (`Limitations.LimitationsBounded`), a run reaches it (`Limitations.IntendedBoundExceeded`), and
  `Limitations.StepWithinIntendedBound` says for every event of every run when 64 survives.
- A truncated journal does not always replay to the live state. One failing cut falls between the
  first event-deriving MI record and its normalized event (`Truncation.UnfaithfulCut`): replay
  applies the MI event. The other keeps no record at all, so replay knows only its caller's session
  id (`Truncation.NothingKeptForgetsSession`). The two states agree exactly when the cut is faithful
  (`Truncation.TruncationSafety`).
- A launch cancelled before its session is bound does not always end ABORTED: if the operation's
  runner dies after the refused binding it ends FAILED (`Operations.PanicLosesTheAbort`). It never
  becomes bound, and after a refused binding it ends ABORTED exactly when the session's actor applied
  the cancel or the runner did not die (`Operations.CancelledBeforeBinding`).
- A durable journal can have a hole in its numbering: a refused append has used its number
  (`Journal.RefusalLeavesHole`). It has none exactly when nothing is accepted after a refusal
  (`Journal.DurableConsecutive`).
- Captures of a running target can be reused inside the gate: a reader that passed the stopped filter
  and waited while the target was resumed captures it, and a second reader hits that capture
  (`SharedReads.RunningCaptureIsHit`). A hit carries a stop exactly when its reader sampled one
  (`SharedReads.HitIsStoppedExactly`). The capture reaches no client admitted under a stop: the
  dispatch compares stop and epoch once more and refuses it, and whatever it does deliver was captured
  under the stop and epoch of the admission (`SharedReads.DeliveredIsSound`).
- A breakpoint id is meant never to come back although GDB reuses numbers. A rebind brings its own
  id, and one that is applied after its breakpoint was deleted revives it
  (`BreakpointHandles.ReboundRevives`). Ids that rebinds took from the registry never alias exactly
  when each is carried by the old or the new number at its rebind
  (`BreakpointHandles.BreakpointHandlesExact`).
- A request whose response is retained when it arrives may still be executed: rows can be pruned
  while it waits (`Idempotency.ForgottenIsExecuted`). Its look at the store leads to execution
  exactly when nothing is retained at that moment (`Idempotency.ExecutesExactlyWhenForgotten`), and
  a key retained throughout is never executed (`Idempotency.RetainedIsReplayed`).
- The validator and the published schema differ on whole numbers written as floats and on integers
  of 2^64 and more (`Contracts.WholeFloatDisagrees`). The validator accepts exactly the values the
  schema allows that hold no such number (`Contracts.CompilationPreservesMeaning`).
- Registering an artifact without a session after a session registered it does not protect it from
  pruning (`Artifacts.LateGlobalRun`); a row survives exactly when it is global from the start or
  another session owns it (`Artifacts.PruneKeepsExactly`).

## Model

| member | source | states |
|---|---|---|
| `LiveReducer.StateReducer.ApplyEvent` | crates/gdb-ai-core/src/reducer.rs:92-108 | the in-place reducer refuses a number that does not advance and otherwise leaves exactly the state `Reducer` specifies, revision included |
| `LiveReducer.StateReducer.Reduce` | crates/gdb-ai-core/src/reducer.rs:110-699 | the dispatch over all event kinds, each performed by its own in-place method, equals the specified transition and its changed flag |
| `LiveReducer.StateReducer.RunTarget` | crates/gdb-ai-core/src/reducer.rs:219-263 | resuming named or all inferiors, the epoch edge and the stop context |
| `LiveReducer.StateReducer.StopTarget` | crates/gdb-ai-core/src/reducer.rs:264-345 | attribution of a stop to inferior and thread, new handles and the new stop context |
| `LiveReducer.StateReducer.ExitThread` | crates/gdb-ai-core/src/reducer.rs:371-386 | removal from the named owner, or from the first owner in key order |
| `LiveReducer.StateReducer.Restore` | crates/gdb-ai-core/src/reducer.rs:624-643 | restoration under taint and otherwise, gaps retained and warnings appended |
| `LiveReducer.StateReducer.FailBackend` | crates/gdb-ai-core/src/reducer.rs:701-721 | live inferiors are disconnected, the stop context is cleared, and the change is reported exactly when something changed |
| `LiveReducer.StateReducer.FailClosed` | crates/gdb-ai-core/src/reducer.rs:84-90 | one terminal revision, published only when something changed |
| `LiveReducer.RetainGaps` | crates/gdb-ai-core/src/reducer.rs:624-643 | keeps the evidence gaps of a limitations list in order |
| `SessionRuns.ReduceKeepsInv` | crates/gdb-ai-core/src/reducer.rs:110-699 | every event keeps the stop-context and registry invariants, moves no counter, and starts no inferior unless it is a running event |
| `SessionRuns.StopContextHolds` | crates/gdb-ai-core/src/reducer.rs:162-263 | in every reachable state a running inferior excludes a stop, a snapshot names the current stop, and without a stop all stop context is absent |
| `SessionRuns.ReduceStopIdentity` | crates/gdb-ai-core/src/reducer.rs:264-345 | only a stop event installs a stop id, and installs the one named after its own number |
| `SessionRuns.ReduceCountsEdges` | crates/gdb-ai-core/src/reducer.rs:219-263 | the epoch advances exactly on an edge from nothing running to something running |
| `RevisionFence.NextFenced` | crates/gdb-ai-core/src/reducer.rs:92-108 | a step advances the revision by one or leaves everything but three bookkeeping fields unchanged |
| `RevisionFence.RevisionIsAFence` | crates/gdb-ai-core/src/reducer.rs:92-108 | equal revisions at two moments of a run mean equal stop, epoch and registries at every moment between |
| `RevisionFence.BookkeepingMovesBehindFence` | crates/gdb-ai-core/src/reducer.rs:592-599 | backend health and the reconciliation flag can change under an unchanged revision |
| `PublicHandles.StopIdInjective` | crates/gdb-ai-core/src/domain.rs:184-199 | within a session a stop id determines its event number |
| `PublicHandles.InferiorIdInjective` | crates/gdb-ai-core/src/domain.rs:207-224 | within a session an inferior id determines its generation and the lossy form of its backend id |
| `PublicHandles.ThreadIdInjective` | crates/gdb-ai-core/src/domain.rs:226-245 | a thread id determines its creation number, when one generation has one backend id as in every run |
| `PublicHandles.ReduceHandles` | crates/gdb-ai-core/src/reducer.rs:127-161 | each event creates at most one inferior handle and one thread handle, both named after the event |
| `PublicHandles.InferiorHandlesNeverAlias` | crates/gdb-ai-core/src/reducer.rs:732-746 | one inferior id at two moments of a run is the same process, registered throughout |
| `PublicHandles.ThreadHandlesNeverAlias` | crates/gdb-ai-core/src/reducer.rs:346-386 | one thread id at two moments of a run is the same thread, registered throughout |
| `BreakpointHandles.BreakpointIdInjective` | crates/gdb-ai-core/src/reducer.rs:398-419 | within a session a breakpoint id determines the event that issued it, in both handle formats |
| `BreakpointHandles.NextIds` | crates/gdb-ai-core/src/reducer.rs:387-452 | a step that is no rebind leaves every id under its number and issues at most one, named after the event |
| `BreakpointHandles.BreakpointHandlesNeverAlias` | crates/gdb-ai-core/src/reducer.rs:398-420 | over every run whose rebinds move an id from one of their two numbers, no two breakpoints share an id and an id that is gone never comes back |
| `BreakpointHandles.NumberKept` | crates/gdb-ai-core/src/reducer.rs:387-439 | in such a run an id keeps its backend number between rebinds |
| `BreakpointHandles.ReboundExact` | crates/gdb-ai-core/src/reducer.rs:453-483 | a rebind keeps a run free of aliases exactly when no third breakpoint carries its id and the id is carried now or was never carried |
| `BreakpointHandles.BreakpointHandlesExact` | crates/gdb-ai-core/src/session/actor.rs:1594-1626 | in every run whose rebinds name ids the registry has carried, handles never alias exactly when each of those ids is carried by the old or the new number at its rebind |
| `BreakpointHandles.ReboundRevives` | crates/gdb-ai-core/src/reducer.rs:453-483 | a run in which a rebind after the deletion brings an id back |
| `Waits.StopHandlesNeverAlias` | crates/gdb-ai-core/src/reducer.rs:264-345 | one stop id at two moments of a run was current at every moment between |
| `Waits.StoppedWaitExact` | crates/gdb-ai-core/src/session.rs:1300-1308 | a stopped wait succeeds exactly when a stop came after the baseline, is still current, and some inferior is stopped |
| `Waits.SnapshotWaitExact` | crates/gdb-ai-core/src/session.rs:1193-1215 | a snapshot wait succeeds exactly when such a later stop's own snapshot is ready |
| `Waits.ExitedWaitExact` | crates/gdb-ai-core/src/session.rs:1314-1338 | an exit wait succeeds exactly when a process is gone that was live at the baseline or created later, reused ids included |
| `Waits.EpochCountsEdges` | crates/gdb-ai-core/src/reducer.rs:219-263 | the epoch is the number of not-running to running edges of the run |
| `Waits.RunningWaitExact` | crates/gdb-ai-core/src/session.rs:1193-1215 | a running wait succeeds exactly when such an edge came after the baseline |
| `Waits.StaleForever` | crates/gdb-ai-core/src/session.rs:1232-1250 | once a later execution has started, every later poll reports stale context |
| `Waits.TimeoutAgreesWithPoll` | crates/gdb-ai-core/src/session.rs:1217-1230 | the answer at the deadline succeeds exactly when a poll would |
| `Limitations.LimitationsBounded` | crates/gdb-ai-core/src/reducer.rs:14-33 | over every run the list has no duplicates, at most 65 entries, and the marker only at its end |
| `Limitations.EventWithinIntendedBound` | crates/gdb-ai-core/src/reducer.rs:511-523 | for every event, a list of at most 64 stays within 64 exactly when the event's limitations do not overflow the list they are pushed to |
| `Limitations.StepWithinIntendedBound` | crates/gdb-ai-core/src/reducer.rs:14-33 | over every run the bound of 64 is first exceeded exactly by an accepted event that overflows a full list without a marker |
| `Limitations.PushesWithinIntendedBound` | crates/gdb-ai-core/src/reducer.rs:624-643 | the same for a whole list of warnings |
| `Limitations.IntendedBoundExceeded` | crates/gdb-ai-core/src/reducer.rs:511-523 | a run that reaches 65 entries |
| `Taint.TaintStays` | crates/gdb-ai-core/src/reducer.rs:600-649 | a tainted session stays tainted until an event reports its consistency lost |
| `Taint.StepAndTaint` | crates/gdb-ai-core/src/reducer.rs:600-649 | a step leaves a tainted session tainted exactly when it does not apply an event reporting its consistency lost |
| `Taint.LossClearsTaint` | crates/gdb-ai-core/src/reducer.rs:624-649 | loss followed by restoration yields a clean session |
| `Journal.Journal.Append` | crates/gdb-ai-core/src/journal.rs:241-305 | the buffered writer appends, refuses or stops with a gap marker exactly as the log function says, and never buffers more than 63 records |
| `Journal.Journal.Flush` | crates/gdb-ai-core/src/journal.rs:307-322 | flushing moves the buffer to the file and changes nothing else a reader can see |
| `Journal.Journal.Finish` | crates/gdb-ai-core/src/journal.rs:324-329 | the closing record is appended and everything reaches the file |
| `Journal.GapFitsReserve` | crates/gdb-ai-core/src/journal.rs:259-286 | a gap marker with a 64-bit number fits the reserve of 256 bytes |
| `Journal.RecordedIsPrefix` | crates/gdb-ai-core/src/journal.rs:241-305 | a performance-mode journal is a prefix of the unbounded one, followed by its gap marker once cut |
| `Journal.RecordedShape` | crates/gdb-ai-core/src/journal.rs:241-305 | it stays within the byte limit, is numbered without holes, and ends in its marker once cut when the limit is at least 256 |
| `Journal.DurableConsecutive` | crates/gdb-ai-core/src/journal.rs:241-266 | a durable journal is numbered without holes exactly when no record is accepted after a refused one |
| `Journal.RefusalLeavesHole` | crates/gdb-ai-core/src/journal.rs:241-266 | two records whose second leaves the first hole |
| `Replay.Replayer.ReadMiOutput` | crates/gdb-ai-core/src/replay.rs:107-141 | an MI record is parsed, recast to the journal's version, applied before any normalized event, and held pending |
| `Replay.Replayer.ReadNormalized` | crates/gdb-ai-core/src/replay.rs:142-174 | the first normalized event resets the reducer, and an event must equal the MI event just before it |
| `Replay.Replayer.MatchPending` | crates/gdb-ai-core/src/replay.rs:153-171 | one pending event and the first unmatched number are enough to know every unanswered record |
| `Replay.Replayer.Feed` | crates/gdb-ai-core/src/replay.rs:68-224 | an entry is accepted exactly when it agrees with everything before it |
| `Replay.CursorsDecidePairing` | crates/gdb-ai-core/src/replay.rs:227-237 | the final test on the two cursors decides the pairing rule over the whole list |
| `Replay.Replay` | crates/gdb-ai-core/src/replay.rs:31-249 | streaming replay succeeds exactly on the journals the whole-list meaning accepts and reports that meaning: counters, gap, completeness, and the state folded from normalized events, or from MI events when there are none |
| `Truncation.ReplayFollowsLive` | crates/gdb-ai-core/src/replay.rs:142-174 | the fold over retained normalized events is the live reducer's run |
| `Truncation.OnlyTheCutUnpairs` | crates/gdb-ai-core/src/replay.rs:227-237 | in a disciplined run only the record just before the cut can be unanswered |
| `Truncation.TruncationSafety` | crates/gdb-ai-core/src/journal.rs:241-305 | for every disciplined run and byte limit the journal is within its limit, contiguous and marked, replay accepts it, and it reaches the live state at the cut exactly when the cut is faithful |
| `Truncation.UnfaithfulCut` | crates/gdb-ai-core/src/replay.rs:107-141 | a journal cut between the first MI event and its normalized event replays to another state than the live one |
| `Truncation.NothingKeptForgetsSession` | crates/gdb-ai-core/src/replay.rs:78-88 | a journal that kept nothing replays to the caller's session |
| `MiStrings.CopySpan` | crates/gdb-ai-mi/src/parser.rs:294-330 | copying a plain span is decoding it byte by byte |
| `MiStrings.QuoteCString` | crates/gdb-ai-mi/src/encoder.rs:3-23 | the quoting loop yields the quoted text |
| `MiStrings.QuoteRoundTrip` | crates/gdb-ai-mi/src/encoder.rs:3-23 | decoding inverts quoting for every byte string within the limit, in any surroundings |
| `MiStrings.OctalRoundTrip` | crates/gdb-ai-mi/src/parser.rs:332-382 | three octal digits decode to their byte even when more digits follow |
| `MiParser.Parser.CString` | crates/gdb-ai-mi/src/parser.rs:294-330 | the span-copying decoder agrees with the byte-at-a-time one, errors, offsets and limit included; its budget never underflows |
| `MiParser.Parser.Escape` | crates/gdb-ai-mi/src/parser.rs:332-382 | escapes, with 8-bit wrap-around of hexadecimal and octal values |
| `MiParser.Parser.Token` | crates/gdb-ai-mi/src/parser.rs:142-155 | a decimal token below two to the 64th, or an error |
| `MiParser.Parser.ClassAndResults` | crates/gdb-ai-mi/src/parser.rs:157-176 | the class and its comma-led results |
| `MiParser.Parser.Result` | crates/gdb-ai-mi/src/parser.rs:178-203 | a named result, legacy scripts included |
| `MiParser.Parser.LegacyScript` | crates/gdb-ai-mi/src/parser.rs:205-218 | the MI3 script tuple becomes a value list |
| `MiParser.Parser.Value` | crates/gdb-ai-mi/src/parser.rs:220-227 | constants, tuples and lists |
| `MiParser.Parser.TupleValue` | crates/gdb-ai-mi/src/parser.rs:229-244 | tuples within the depth limit |
| `MiParser.Parser.ListValue` | crates/gdb-ai-mi/src/parser.rs:246-279 | lists, told apart by their first element |
| `MiParser.Parser.LooksLikeResult` | crates/gdb-ai-mi/src/parser.rs:281-292 | the lookahead that tells them apart |
| `MiParser.ParseRecord` | crates/gdb-ai-mi/src/parser.rs:58-140 | the parser agrees with the grammar on every input, errors included, and what it accepts is well formed and within the limits |
| `MiPrinter.ParsePrinted` | crates/gdb-ai-mi/src/parser.rs:58-140 | parsing a printed record returns it, for every well-formed record within the limits and either script spelling |
| `MiPrinter.LegacySpellingAgrees` | crates/gdb-ai-mi/src/parser.rs:193-218 | both spellings of a record's scripts parse to the same record |
| `MiPrinter.ParseSound` | crates/gdb-ai-mi/src/parser.rs:58-140 | an accepted input is consumed whole and yields identifier names, non-empty result lists, bounded depth and bounded strings |
| `MiPrinter.ReparseStable` | crates/gdb-ai-mi/src/parser.rs:58-140 | printing and parsing an accepted record again changes nothing |
| `MiLegacy.LegacyMeansList` | crates/gdb-ai-mi/src/parser.rs:193-218 | in any text, with any escapes, a braced script and the same bytes in brackets yield the same result |
| `MiFramer.Framer.Push` | crates/gdb-ai-mi/src/framer.rs:34-84 | one chunk yields the records of buffer and chunk together and fails exactly when a line is over the limit |
| `MiFramer.Framer.Drain` | crates/gdb-ai-mi/src/framer.rs:54-84 | the splitting loop with its cursor equals splitting the buffer from its start |
| `MiFramer.Framer.Finish` | crates/gdb-ai-mi/src/framer.rs:86-101 | the unterminated remainder, or an error over the limit |
| `MiFramer.SplitAppend` | crates/gdb-ai-mi/src/framer.rs:43-84 | splitting a longer stream continues from the remainder of the shorter one |
| `MiFramer.ChunkIndependence` | crates/gdb-ai-mi/src/framer.rs:34-84 | however a stream is cut into chunks, the records and the outcome are those of the whole stream |
| `MiFramer.FrameAll` | crates/gdb-ai-mi/src/framer.rs:34-101 | a reader that feeds chunks until failure and then finishes gets exactly that |
| `SharedReads.Sound` | crates/gdb-ai-core/src/gateway.rs:922-1001 | what every interleaving keeps: provenance of every cached result, one reader inside, exact byte total |
| `SharedReads.HitIsSound` | crates/gdb-ai-core/src/gateway.rs:950-966 | a hit was captured under the stop and epoch the reader sampled, with nothing behind the revision changed since and no mutation admitted since its generation was sampled |
| `SharedReads.CaptureIsStable` | crates/gdb-ai-core/src/gateway.rs:966-977 | a captured stop was current, in one epoch, at every moment of the capture |
| `SharedReads.HitIsStoppedExactly` | crates/gdb-ai-core/src/gateway.rs:927-966 | a hit carries a stop exactly when its reader sampled one |
| `SharedReads.RunningCaptureIsHit` | crates/gdb-ai-core/src/gateway.rs:927-966 | an interleaving in which a capture of the running target is hit inside the gate, by a reader whose dispatch then refuses it |
| `SharedReads.DeliveredIsSound` | crates/gdb-ai-core/src/gateway.rs:696-824 | a delivered answer was captured in the epoch of its reader's admission, the epoch at every moment from admission and capture to delivery; for a reader admitted under a stop the same holds of the stop |
| `SharedReads.MutationInvalidates` | crates/gdb-ai-core/src/gateway.rs:769-778 | after an admitted mutation only results sampled later can be hit |
| `SharedReads.CacheStaysBounded` | crates/gdb-ai-core/src/gateway.rs:983-999 | at most 16 results, whose recorded byte total is exact and within the limit |
| `SharedReads.OneReaderInside` | crates/gdb-ai-core/src/gateway.rs:940-949 | two readers are never inside the gate together |
| `Idempotency.LastReference` | crates/gdb-ai-core/src/gateway.rs:425-435 | with a reference count of two only the registry and the releasing task know the lock |
| `Idempotency.KeysExclude` | crates/gdb-ai-core/src/gateway.rs:285-298 | all tasks working on a key share the registry's lock and at most one is inside it |
| `Idempotency.NeverReexecuted` | crates/gdb-ai-core/src/gateway.rs:299-331 | while a request executes no response to its key is retained, and no other task executes that key |
| `Idempotency.RetainedIsReplayed` | crates/gdb-ai-core/src/gateway.rs:285-331 | over the run, a dispatch whose key stays retained, in memory or durably, from its arrival on is answered with that one response, or a conflict for other parameters, or a store failure, and nobody executes the key meanwhile |
| `Idempotency.ExecutesExactlyWhenForgotten` | crates/gdb-ai-core/src/gateway.rs:299-331 | the look at the store leads to execution exactly when nothing is retained for the key |
| `Idempotency.ExecutedOnlyWhenForgotten` | crates/gdb-ai-core/src/gateway.rs:299-331 | an answer is executed anew only if its key was retained nowhere at some moment of the dispatch |
| `Idempotency.ForgottenIsExecuted` | crates/gdb-ai-core/src/persistence.rs:993-1028 | a run in which pruning forgets a waiting dispatch's key and it executes |
| `Idempotency.RetainedEntryStays` | crates/gdb-ai-core/src/gateway.rs:394-411 | while a key stays retained its entry never changes and memory and store agree on it |
| `Idempotency.AnswersAreExecutions` | crates/gdb-ai-core/src/gateway.rs:394-415 | every response handed out was produced by an execution of the same key and parameters |
| `Idempotency.RoomMade` | crates/gdb-ai-core/src/gateway.rs:406-411 | the memory of responses never exceeds 1024 entries |
| `Operations.Lifecycle` | crates/gdb-ai-core/src/gateway/operation.rs:96-153 | a result exactly when terminal, the registry within its maximum, no unfinished operation forgotten, an abort only of what was cancelled |
| `Operations.EvictionKeeps` | crates/gdb-ai-core/src/gateway/operation.rs:96-110 | eviction removes completed operations only |
| `Operations.TerminalIsFinal` | crates/gdb-ai-core/src/gateway/operation.rs:247-292 | a terminal status and its result never change |
| `Operations.CancellationStays` | crates/gdb-ai-core/src/gateway/operation.rs:247-262 | starting never overwrites a requested cancellation; only completion follows it |
| `Operations.CancelledBeforeBinding` | crates/gdb-ai-core/src/gateway/operation.rs:157-177 | in every run a fresh launch cancelled before its session is bound never becomes bound; once finished it is ABORTED exactly when its outcome is known and the cancel was applied or observed, and after a refused binding exactly when the cancel was applied or its runner did not die, FAILED otherwise |
| `Operations.PanicLosesTheAbort` | crates/gdb-ai-core/src/gateway/operation.rs:263-292 | a run in which the runner dies after the refused binding and the operation ends FAILED |
| `Operations.CancelledAfterBinding` | crates/gdb-ai-core/src/gateway/operation.rs:337-387 | a cancellation of a bound, unfinished launch finds the bound session and keeps the transition lock |
| `Operations.OutcomeExact` | crates/gdb-ai-core/src/gateway/operation.rs:426-441 | in every run a finished operation is ABORTED exactly when it was cancelled, its outcome is known and the cancel took effect, and otherwise has its response's outcome |
| `Ring.ByteRing.Append` | crates/gdb-ai-core/src/ring.rs:32-53 | the ring holds the last bytes of the stream, as many as fit |
| `Ring.ByteRing.Read` | crates/gdb-ai-core/src/ring.rs:55-80 | a read over the deque's two slices returns what the stream alone prescribes |
| `Ring.ReadsTheStream` | crates/gdb-ai-core/src/ring.rs:55-80 | the returned bytes are the stream's at the reported offsets, without a hole |
| `Spool.Sound` | crates/gdb-ai-core/src/backend.rs:212-269 | what every interleaving of appender, writer and finisher keeps: the accounting, the gate, and the bytes in file, writer and channel |
| `Spool.AppendsAreAccounted` | crates/gdb-ai-core/src/backend.rs:212-251 | each completed append leaves captured plus dropped equal to the bytes appended |
| `Spool.CompleteMeansWhole` | crates/gdb-ai-core/src/backend.rs:290-301 | a complete status means the spool file is the stream of all completed appends |
| `Spool.SpoolReadsTheStream` | crates/gdb-ai-core/src/backend.rs:271-288 | a spool read returns the stream's bytes at the offsets asked for, whatever the writer does meanwhile |
| `Spool.PtyReadsTheStream` | crates/gdb-ai-core/src/backend.rs:468-483 | a read through ring and spool returns the stream's bytes at the reported offsets |
| `Artifacts.Sound` | crates/gdb-ai-core/src/persistence.rs:673-844 | over every run with crashes the session, owner and global sums stay within quota, every row has its published file, and every owner row its row and session |
| `Artifacts.PutKeepsQuotas` | crates/gdb-ai-core/src/persistence.rs:673-844 | an admitted registration keeps all three overlapping quotas |
| `Artifacts.SensitivityNeverFalls` | crates/gdb-ai-core/src/persistence.rs:806-831 | while an artifact stays stored its sensitivity rank never falls |
| `Artifacts.PruneKeepsExactly` | crates/gdb-ai-core/src/persistence.rs:314-372 | a row survives pruning exactly when it is global or another session owns it |
| `Artifacts.LateGlobalIsPruned` | crates/gdb-ai-core/src/persistence.rs:816-831 | a global registration that came second does not protect a row |
| `Artifacts.LateGlobalRun` | crates/gdb-ai-core/src/persistence.rs:816-831 | a run from the empty store that loses a globally registered artifact |
| `ArtifactStore.Store.Put` | crates/gdb-ai-core/src/persistence.rs:673-844 | the checks in their order, the file published before the commit, and the resulting tables |
| `ArtifactStore.Store.CheckSession` | crates/gdb-ai-core/src/persistence.rs:704-785 | session quota, missing owner and owner quota, in that order |
| `ArtifactStore.Store.Prune` | crates/gdb-ai-core/src/persistence.rs:314-372 | rows go in one transaction and files afterwards, some of which a crash may leave |
| `ArtifactStore.Store.DeleteUnowned` | crates/gdb-ai-core/src/persistence.rs:934-948 | deletes exactly a once-attributed row that nobody owns |
| `ArtifactStore.Store.Collect` | crates/gdb-ai/src/storage_cli.rs:254-270 | garbage collection removes exactly the collectable rows with their files and the stray files, row before file, and every remaining row has its file |
| `ArtifactStore.Store.SetSessionOwner` | crates/gdb-ai-core/src/persistence.rs:377-388 | the first owner of a session stays its owner |
| `Contracts.CompilationPreservesMeaning` | crates/gdb-ai-core/src/contracts.rs:22-101 | for every contract tree with distinct names and every JSON value, the validator accepts it exactly when it satisfies the schema and holds no whole float and no integer of 2^64 or more |
| `Contracts.AcceptedIsOrdinary` | crates/gdb-ai-core/src/contracts.rs:22-48 | nothing with such a number is ever accepted |
| `Contracts.MethodsAgree` | crates/gdb-ai-core/src/contracts.rs:525-601 | the same for whole methods with their exactly-one-of groups |
| `Contracts.CompileFields` | crates/gdb-ai-core/src/contracts.rs:176-190 | the loop that builds properties and required names yields the object schema |
| `Contracts.Validate` | crates/gdb-ai-core/src/contracts.rs:558-601 | the validator's loops accept exactly the acceptable parameters and name a true reason otherwise |
| `Contracts.UnsignedExact` | crates/gdb-ai-core/src/contracts.rs:22-48 | on any value at all, when an unsigned field and its schema agree |
| `Contracts.WholeFloatDisagrees` | crates/gdb-ai-core/src/contracts.rs:22-48 | the number 1.0 separates them |
| `Contracts.RepeatedNameDisagrees` | crates/gdb-ai-core/src/contracts.rs:149-193 | why names must be distinct, as they are in every contract of the source: with a repeated one the two readings disagree |

## Left out

- Numbers that would overflow 64-bit counters: sequence numbers, revisions, epochs, offsets and byte counts are unbounded here; the token, the gap reserve and schema integers carry their bounds explicitly.
- Text is a sequence of characters: byte lengths of journal lines and cache entries are character counts, exact for ASCII.
- I/O failures of the journal writer, torn lines and the recovery of a partly written line: writes succeed in the journal model.
- The JSON and base64 encodings: a journal line either decodes to its entry, is blank, or is garbled; schemas and values are datatypes.
- Which event an MI record stands for: replay takes a deterministic function from record bytes to an optional event, so the field extraction in the normalizer is not modelled.
- The actor that owns a session: `Truncation` takes only the order of records that replay checks.
- Weaker memory orderings: every atomic access is one step of a sequentially consistent interleaving.
- Update in place in the gateway, the spool and the operation registry: these are modelled on values, one step per lock-protected region, because what is proved is about interleavings.
- Concurrent appenders of one PTY: the source has a single reader task, and the model a single appender.
- The warning added to a response whose durable copy failed: the modelled response does not carry it.
- Caller identity in the operation registry, response bodies, deadlines and waiter wake-ups.
- The text of errors: replay, contracts and the stores answer with the kind of refusal; the MI parser keeps offset, expectation and byte.
- The framer's two error names: only success or failure of a stream is chunk-independent, not which limit is named.
- Reopening the artifact store, which adds owner rows back from the legacy column: artifact runs are those between two opens.
- Verification of artifact files against their digest, temporary files and file permissions: hashing is injective and a published file has its content.
- Durable mode beyond refusal: flush boundaries and synchronisation.
- Modules, signal policies, breakpoint locations and other registry events are modelled, but nothing is stated of them beyond the fence and the invariants they keep.
- Shared reads of a target without a stop, which bypass the cache, and failed executions, which leave it alone, are a reader that never enters or gives up.
- Process spawning, PTY handling, policy tables, rate limits, redaction, protocol shaping, metrics, configuration and client libraries.
