# A verified model of the concurrent and algorithmic core

The files here model the parts of the repository where correctness is not visible in any
single function: protocols that run across `await`s, walks over cyclic graphs, incremental
decoders, stores whose index is kept by hand, and printers whose output another program
reads. Each part has a specification that is told from the inputs alone, the loops or
objects of the source in imperative form proved against it, and results about it for every
input, every run or every reachable state.

| files | part of the system |
|---|---|
| `LifecycleLock`, `SessionProtocol`, `SessionSafety`, `SessionTheorems`, `SessionOutcomes`, `SessionShares`, `SessionWaits`, `SessionProgress`, `SessionDriver` | the per-chat session protocol: queue, stop epoch, lifecycle lock, shared creation, reset |
| `GlobModel`, `GlobBounds`, `GlobCancel`, `GlobWalker` | the glob walk over directories with symbolic links |
| `GlobTrees`, `GlobRuns`, `GlobFinds`, `GlobOnce`, `GlobChains`, `GlobWitnesses`, `GlobExactness` | for which patterns the walk is exact on plain trees |
| `ByteDecoders`, `LineReader` | the `ignore` decoders and the line reader on top of them |
| `StreamParts`, `StreamOutcomes`, `StreamAssembly`, `StreamTheorems`, `StreamContent` | assembling a streamed answer |
| `Watchdog`, `WatchdogSafety`, `WatchdogExits`, `WatchdogRacers`, `WatchdogGenerator` | the idle-stream watchdog as a timed machine |
| `MemoTable`, `KeysetPaging`, `KeysetContents`, `MemoStore`, `LikePattern` | the memory store: paging under concurrent writes, substring search |
| `FtsIndex`, `KnowledgeLibrary`, `KnowledgeTheorems`, `KnowledgeRows`, `KnowledgeStore` | the knowledge library and its full-text indexes |
| `ChunkText`, `TextPieces`, `Chunking`, `ChunkingTheorems`, `DocumentText`, `DocumentSections` | cutting documents into chunks |
| `Consolidation`, `ConsolidationApply`, `ConsolidationLineage`, `ConsolidationSafety`, `ConsolidationKept` | consolidating memos |
| `TurnCollector`, `TurnAnswers`, `CronRelay`, `CronRelayTheorems`, `CronRelayNotices` | the relay of scheduled tasks |
| `EmbeddingBatches` | embedding in length-sorted batches |
| `Quoting` | quoting for the POSIX shell and for batch files |
| `RowIds`, `StableSort`, `Whitespace`, `Wrappers` | shared by the others |

## How it is modelled

A synchronous stretch of JavaScript is one step; every `await` lets other steps come in
between. The session protocol and the watchdog are state machines over such steps, with
inductive invariants that hold in every state of every run; the classes beside them have the
source's fields, and each method is proved to be one step. The session machine allows more
interleavings than the microtask queue does, so its safety results hold for the program. In
the watchdog each clock reading is a value of its own and a stretch takes at most `skew`;
with `skew` 0 the timer is due exactly at the deadline.

File system, database engine, neural network, tokenizers, model output, clocks and random
identities are parameters or step choices. Strings are sequences of Unicode scalar values,
except in the chunker, which counts UTF-16 code units.

## Where the code differs from its comments

- `packages/jian/src/local.ts:158-163` says that trees without revisits are untouched by the
  bound of two entries per directory. On a plain chain of directories the walk loses paths when
  a run of segments behind a `**` comes by a directory twice, as for `**/*/*/*`, `**/a/a/a` or
  `**/a/b/a/c` (`GlobWitnesses.BadRunLoses`), and finds paths twice when another `**` with no more
  than one segment follows (`GlobWitnesses.LightRepeats`). Other long runs, like `**/a/b/c`, are
  exact. `GlobExactness.GlobExactIff` is the exact condition for every pattern, by the names its
  segments share; each segment is read by its own matcher, fixed before the tree.
- `packages/knowledge/src/store.ts:448-486` deletes index entries by the `source_id` of a row,
  while the foreign keys also take rows below the source's documents and chunks. The ingest
  keeps the two the same; `KnowledgeTheorems.DeleteSourceKeepsIndexesIff` is the exact condition,
  and `KnowledgeTheorems.SessionExactIff` the one for whole sessions.
- `apps/scream-code/src/line/session-driver.ts:819-855` keeps the `resetting` flag in a set, so
  of two overlapping resets the first to end clears it for both
  (`SessionTheorems.FlagLapsesWithTwoResets`). `SessionTheorems.FlagCoversReset` says exactly
  when the flag covers every reset; the other results do not depend on it.
- In `packages/ltod/src/generate.ts:145-185` headers need not have distinct indices: a delta
  belongs to the latest header with its index. Distinctness is only needed for
  `StreamTheorems.CallAsIfAlone` and `StreamTheorems.InterleavingIrrelevant`.
- In `packages/ltod/src/idle-iterator.ts:230-243` a second clock reading can make the timer due
  behind the deadline (`WatchdogSafety.LateTimer`), by no more than two stretches, and it is on
  time in all runs exactly when a stretch takes no time (`WatchdogSafety.OnTimeIff`); race by
  race `WatchdogSafety.RaceOnTimeIff` says when.
- The sentence pattern of `packages/knowledge/src/chunking.ts:307-310` drops the terminators that
  open a text (`ChunkingTheorems.OpeningMarkIsLost`); `ChunkingTheorems.NothingLost` is the exact
  condition.
- A consolidation plan looks at the memos of the moment it is built. A memo that becomes a rule
  only afterwards is deleted like any other resolved or stale memo
  (`ConsolidationSafety.LateRuleIsLost`); `ConsolidationSafety.SurvivesCrashIff` says which memos
  of a changed store survive.

## Model

| member | source | states |
|---|---|---|
| `SessionTheorems.ResetSparesExecutingTurn` | apps/scream-code/src/line/session-driver.ts:816-856 | In every reachable state, a turn that holds a session holds the live map entry; that session is not closed and no reset is closing or deleting |
| `SessionTheorems.SessionAfterResetIsNew` | apps/scream-code/src/line/session-driver.ts:761-780 | A turn that resolves its session after a reset took the old one away gets an object created after that reset's `deleteSession` returned |
| `SessionTheorems.OneCreationInFlight` | apps/scream-code/src/line/session-driver.ts:764-775 | At most one session creation per chat is unfinished, in every interleaving |
| `SessionTheorems.MapEntryNeverOverwritten` | apps/scream-code/src/line/session-driver.ts:802-812 | A creation only ever fills an empty map entry, and a live entry leaves only through a reset that finds no unsettled job |
| `SessionTheorems.LockExcludes` | apps/scream-code/src/line/session-driver.ts:783-800 | A resolver inside the lifecycle lock excludes every reset and every other resolver |
| `SessionTheorems.PendingCountsUnsettled` | apps/scream-code/src/line/session-driver.ts:339-377 | `pending` of the live queue object is the number of accepted, unsettled jobs and at most 3; objects dropped from the map count 0 |
| `SessionTheorems.AcceptedWhenNotFull` | apps/scream-code/src/line/session-driver.ts:339-347 | A submission is accepted if and only if fewer than three jobs are unsettled and, for a plain message, no reset flag is up; it is appended as a waiting job |
| `SessionTheorems.BodiesRunInOrder` | apps/scream-code/src/line/session-driver.ts:356-371 | Bodies start in submission order; when one starts every earlier one has ended and every later one still waits, across recreated queue objects |
| `SessionTheorems.BodiesNeverOverlap` | apps/scream-code/src/line/session-driver.ts:356-371 | Two turn bodies of one chat are never inside together |
| `SessionTheorems.DroppedIffStopped` | apps/scream-code/src/line/session-driver.ts:357-363 | A job is dropped silently when its turn comes if and only if a `/stop` came between its submission and the start of its body; otherwise its turn runs |
| `SessionTheorems.StoppedTurnIsSilent` | apps/scream-code/src/line/session-driver.ts:224-238 | A registered turn that `/stop` finds racing never replies, whatever its session does later |
| `SessionTheorems.FlagCoversReset` | apps/scream-code/src/line/session-driver.ts:816-855 | For every run whose resets have all ended: the flag was up at every moment of every reset if and only if no reset began while it was up; while it is up, plain messages are refused |
| `SessionTheorems.FlagNeedsReset` | apps/scream-code/src/line/session-driver.ts:819-855 | The flag is never up without a reset under way |
| `SessionTheorems.FlagLapsesWithTwoResets` | apps/scream-code/src/line/session-driver.ts:819-855 | A run with two resets of one chat in which the first clears the `resetting` flag while the second is still under way |
| `SessionOutcomes.TurnEndsIff` | apps/scream-code/src/line/session-driver.ts:435-525 | In every run, a turn that is over was silent if and only if a `/stop` came while it was racing; it answered, or ran into its deadline, if and only if its race ended that way without one; it failed if and only if it was refused a session, and was dropped if and only if its epoch was gone when its body started |
| `SessionOutcomes.ResetEndsIff` | apps/scream-code/src/line/session-driver.ts:816-856 | In every run, a reset that is over gave up behind the chain if and only if the queue it waited for was busy again; inside the lock it called `deleteSession` if and only if no job was unsettled, and closed a session if and only if the map then had one |
| `SessionOutcomes.IdleResetDestroys` | apps/scream-code/src/line/session-driver.ts:832-851 | From the moment a reset comes inside the lock: with no job unsettled it closes the session in the map, if there is one, and then deletes; with one unsettled the entry stays and neither happens |
| `SessionOutcomes.ResetClosesWhatItFound` | apps/scream-code/src/line/session-driver.ts:842-850 | The session a reset closes is the one it found in the map, and `deleteSession` comes behind the closing |
| `SessionWaits.ResetWaitsForTurns` | apps/scream-code/src/line/session-driver.ts:823-831 | In every run, once a reset is past the queue, and so whenever it is inside the lock, closes or deletes, every job accepted before it began is over |
| `SessionShares.CallsShareCreation` | apps/scream-code/src/line/session-driver.ts:757-766 | In every run, a call of `resolveSession` that finds a session returns it at once; one that finds a creation under way never takes the lock and returns that creation's session or its rejection; only one that finds neither asks for the lock |
| `SessionWaits.ClosedIff` | apps/scream-code/src/line/session-driver.ts:842-848 | In every run, the sessions counted as taken away to be closed are those that resets found in the map with no job unsettled, and no others |
| `SessionOutcomes.ResolveReturnsIff` | apps/scream-code/src/line/session-driver.ts:761-775 | A call of `resolveSession` returns a rejection if and only if the one creation it made or waited for was rejected, and that creation's session if it succeeded |
| `SessionOutcomes.CreationRejectedIff` | apps/scream-code/src/line/session-driver.ts:802-812 | A creation is rejected if and only if an event of its own made it fail |
| `SessionOutcomes.CommandsCounted` | apps/scream-code/src/line/session-driver.ts:312-333 | Every command that got past the reset guard is answered or expanded once, or still running |
| `SessionProgress.NothingStuck` | apps/scream-code/src/line/session-driver.ts:761-856 | In every reachable state something can move without new input, or every job, resolver, reset and lock ticket is finished: no interleaving deadlocks |
| `SessionProgress.ComesToRest` | apps/scream-code/src/line/session-driver.ts:761-856 | From any reachable state, steps without new input come to an end after a bounded number of them, and then everything is finished |
| `SessionSafety.RunKeepsInv` | apps/scream-code/src/line/session-driver.ts:761-856 | The inductive invariant of queue, lock, creations, resets and sessions holds in every state of every run |
| `SessionSafety.StepKeepsQueue` | apps/scream-code/src/line/session-driver.ts:339-377 | Every step keeps the queue invariant: chain order and the meaning of `pending` |
| `SessionSafety.StepKeepsOwners` | apps/scream-code/src/line/session-driver.ts:783-800 | Every step keeps lock tickets and their owners in agreement |
| `SessionSafety.StepKeepsCreation` | apps/scream-code/src/line/session-driver.ts:764-775 | Every step keeps at most one creation alive, made by the resolver inside the lock |
| `SessionSafety.StepKeepsHold` | apps/scream-code/src/line/session-driver.ts:816-856 | Every step keeps executing turns and resets apart |
| `LifecycleLock.MutualExclusion` | apps/scream-code/src/line/session-driver.ts:783-800 | Two calls are never inside the lock together, although its map entry is deleted on release |
| `LifecycleLock.EntersInOrder` | apps/scream-code/src/line/session-driver.ts:784-791 | Calls enter in request order: when one enters, all before it have left and all behind it wait |
| `LifecycleLock.FirstUnreleasedMayEnter` | apps/scream-code/src/line/session-driver.ts:786-791 | No wake-up is lost: the first call that has not left may always proceed |
| `LifecycleLock.RequestKeepsInv` | apps/scream-code/src/line/session-driver.ts:784-790 | Taking a ticket keeps the lock invariant, also when the map entry had been deleted |
| `LifecycleLock.ReleaseKeepsInv` | apps/scream-code/src/line/session-driver.ts:794-799 | Releasing, with the conditional delete of the map entry, keeps the lock invariant |
| `SessionDriver.LineSessionDriver.Submit` | apps/scream-code/src/line/session-driver.ts:312-355 | The queueing stretch does exactly the machine's step to this chat and nothing to others; accepted if and only if no flag and fewer than three unsettled jobs |
| `SessionDriver.LineSessionDriver.SubmitExpanded` | apps/scream-code/src/line/session-driver.ts:326-355 | The same after a custom command was expanded, where the flag is not read again |
| `SessionDriver.LineSessionDriver.EnqueueJob` | apps/scream-code/src/line/session-driver.ts:339-349 | Reuses or recreates the queue object, chains the job behind its tail and counts it |
| `SessionDriver.LineSessionDriver.Settle` | apps/scream-code/src/line/session-driver.ts:371-376 | Counts the job down and deletes the queue entry only if it is this object and idle |
| `SessionDriver.LineSessionDriver.StopActiveTurn` | apps/scream-code/src/line/session-driver.ts:224-248 | Does the machine's `/stop` step: bumps the epoch and stops the registered turn when there is anything to stop |
| `SessionDriver.LineSessionDriver.StartBody` | apps/scream-code/src/line/session-driver.ts:356-365 | Starts a body: the epoch check, then the step into session resolution |
| `SessionDriver.LineSessionDriver.RegisterTurn` | apps/scream-code/src/line/session-driver.ts:465-466 | Registers the turn as the chat's active one |
| `SessionDriver.LineSessionDriver.ResolveForCommand` | apps/scream-code/src/line/session-driver.ts:761-766 | The synchronous part of resolving for a command answered outside the queue |
| `SessionDriver.LineSessionDriver.ResolveInsideLock` | apps/scream-code/src/line/session-driver.ts:766-775 | The re-check inside the lock and the start of a creation |
| `SessionDriver.LineSessionDriver.InstallSession` | apps/scream-code/src/line/session-driver.ts:802-812 | The finished session enters an empty map entry |
| `SessionDriver.LineSessionDriver.SettleCreation` | apps/scream-code/src/line/session-driver.ts:770-772 | The creation leaves `sessionCreations` when it settles |
| `SessionDriver.LineSessionDriver.LeaveLock` | apps/scream-code/src/line/session-driver.ts:792-799 | Releases the lock, deleting the entry only if it is this call's own |
| `SessionDriver.LineSessionDriver.BeginResetSession` | apps/scream-code/src/line/session-driver.ts:816-829 | Raises the flag and decides whether to wait for the queue |
| `SessionDriver.LineSessionDriver.TakeSessionInsideLock` | apps/scream-code/src/line/session-driver.ts:832-850 | Re-reads the queue inside the lock and, when it is idle, takes the session out of the map to close it or goes on to the deletion; `SessionOutcomes.IdleResetDestroys` says what comes of it in every run |
| `SessionDriver.LineSessionDriver.EndResetSession` | apps/scream-code/src/line/session-driver.ts:853-855 | Clears the flag |
| `SessionDriver.LineSessionDriver.ReceiveCommand` | apps/scream-code/src/line/session-driver.ts:319-328 | The reset guard in front of a command |
| `SessionDriver.LineSessionDriver.EndRace` | apps/scream-code/src/line/session-driver.ts:478-498 | Behind the race: cancel for `/stop` or the deadline, otherwise the turn is answered and unregistered if still registered; `SessionOutcomes.TurnEndsIff` says how each turn ends in every run |
| `SessionDriver.LineSessionDriver.CancelReturned` | apps/scream-code/src/line/session-driver.ts:482-498 | Behind the cancel: the outcome, and unregistering |
| `SessionDriver.LineSessionDriver.ReturnAwaitedCreation` | apps/scream-code/src/line/session-driver.ts:764-765 | A call that shared a creation returns its session or rejection |
| `SessionDriver.LineSessionDriver.FailCreation` | apps/scream-code/src/line/session-driver.ts:770-775 | A creation that fails leaves its map |
| `SessionDriver.LineSessionDriver.CheckQueueBehindChain` | apps/scream-code/src/line/session-driver.ts:825-832 | Behind the chain: gives up when the queue object is busy again, otherwise asks for the lock |
| `SessionDriver.LineSessionDriver.LeaveResetLock` | apps/scream-code/src/line/session-driver.ts:792-799 | A reset releases the lock, deleting the entry only if it is its own |
| `SessionDriver.NoResetAwaitsCreation` | apps/scream-code/src/line/session-driver.ts:840-842 | A reset inside the lock never finds a creation to wait for |
| `GlobModel.VisitedShrinks` | packages/jian/src/local.ts:870-885 | Descending shrinks the set of directories not yet visited: the first component of the lexicographic termination measure |
| `GlobBounds.GlobWork` | packages/jian/src/local.ts:164-188 | On every finite graph, links and cycles included: at most two entries per directory and at most 2*N*P directory reads |
| `GlobBounds.AbortedGlobIsPrefix` | packages/jian/src/local.ts:670-686 | Whenever the signal fires, the yielded paths are a prefix of the full walk's, and all of them if it never stops the walk |
| `GlobCancel.SignalBoundsWork` | packages/jian/src/local.ts:670-860 | When the signal fires after n checkpoints that found it quiet, the whole call has read and yielded no more than n in all, and read no more than n/2 directories; with n = 0 it neither reads, enters nor yields anything |
| `GlobBounds.GlobSound` | packages/jian/src/local.ts:782-943 | On every graph, under every signal, each yielded path is allowed, not excluded and matches the declarative pattern relation |
| `GlobExactness.GlobExactIff` | packages/jian/src/local.ts:782-943 | For every pattern, matcher and stock of file names: the walk is exact on all plain trees if and only if some segment takes no name, or the pattern is orderly: behind each `**` the first segment shares a name with a later one only if that is the last of the pattern, or all behind it up to the next `**` takes every name; and with several `**` two segments at least follow the last |
| `GlobExactness.OneStarExactIff` | packages/jian/src/local.ts:158-188 | One `**` and a run of segments is exact on all plain trees if and only if the first of the run shares no name with a later one but the last |
| `GlobExactness.LiteralsExactIff` | packages/jian/src/local.ts:158-188 | `**` followed by literal names is exact on all plain trees if and only if the first does not recur before the last |
| `GlobExactness.WildcardsExactIff` | packages/jian/src/local.ts:158-164 | `**` followed by n parts that take every name is exact on all plain trees if and only if n <= 2 |
| `GlobExactness.GlobExactOnTrees` | packages/jian/src/local.ts:782-943 | Whatever the segments match: with runs of at most two segments behind each `**`, and two behind the last of several, the walk yields exactly the allowed matching paths of every plain tree, each once |
| `GlobExactness.ExactWalk` | packages/jian/src/local.ts:849-943 | An orderly pattern adds every listed path once and no other, wherever on an unvisited subtree the walk starts |
| `GlobFinds.WalkFinds` | packages/jian/src/local.ts:849-943 | Completeness: below a `**`, directories entered once at most by its run, or found out already, cost no path |
| `GlobFinds.RunFinds` | packages/jian/src/local.ts:906-942 | A run of segments finds its paths and leaves every directory entered once at most, or found out |
| `GlobOnce.WalkOnce` | packages/jian/src/local.ts:164-188 | From any counts at all: with one `**`, or two segments behind the last, nothing is yielded twice, and the directory a path is found through has no entry left afterwards |
| `GlobRuns.EndsOnce` | packages/jian/src/local.ts:164-188 | In a good run, a directory reached by two beginnings of the run leaves nothing to find but what the longer one swallows |
| `GlobRuns.OverlapIff` | packages/jian/src/local.ts:164-188 | Two beginnings of a run can end one path if and only if its first segment shares a name with a later one |
| `GlobWitnesses.BadRunLoses` | packages/jian/src/local.ts:158-164 | Any pattern with a run that is not good loses a listed path of a chain of directories, each with a name its own segment takes |
| `GlobWitnesses.LightRepeats` | packages/jian/src/local.ts:158-164 | A last `**` with no more than one segment, behind another `**` with a good run, yields a path of some such chain twice |
| `GlobChains.StarTrapped` | packages/jian/src/local.ts:164-188 | A directory the run has entered twice keeps the `**` out of it: nothing below is found |
| `GlobWalker.Walker.WalkDirectory` | packages/jian/src/local.ts:782-943 | Every generator frame does to the shared counter, signal and consumer what the walk function says, whatever its state on entry |
| `GlobWalker.Walker.DescendEverywhere` | packages/jian/src/local.ts:849-895 | The entry loop of a `**` frame |
| `GlobWalker.Walker.FollowSegment` | packages/jian/src/local.ts:906-942 | The entry loop of a segment frame |
| `GlobWalker.Walker.EnterPhysical` | packages/jian/src/local.ts:183-188 | Admits a directory twice per walk and counts only admitted entries |
| `GlobWalker.Walker.constructor` | packages/jian/src/local.ts:670-740 | The outermost call: seeds visited set and counter with the root |
| `ByteDecoders.DecodeUtf8Ignore` | packages/jian/src/internal.ts:14-89 | The loop computes the specified decode of the whole input |
| `ByteDecoders.DecodeUtf16LeIgnore` | packages/jian/src/internal.ts:97-134 | The loop computes the specified decode of the whole input |
| `ByteDecoders.ReadUtf8` | packages/jian/src/internal.ts:22-85 | The branches of one round, down to which bytes are consumed |
| `ByteDecoders.ReadUtf16Le` | packages/jian/src/internal.ts:106-130 | The branches of one round, down to which bytes are consumed |
| `ByteDecoders.AcceptedIsEncoded` | packages/jian/src/internal.ts:22-82 | What a step accepts is exactly the encoding of the scalar value it puts out |
| `ByteDecoders.EncodedIsAccepted` | packages/jian/src/internal.ts:22-82 | The encoding of a scalar value is accepted wherever it stands and gives that value |
| `ByteDecoders.AcceptsExactlyTheEncodings` | packages/jian/src/internal.ts:14-134 | A step accepts if and only if some scalar value's encoding stands there |
| `ByteDecoders.AcceptsExactlyTheGrammar` | packages/jian/src/internal.ts:22-82 | For UTF-8 the accepted sequences are those of the grammar in section 4 of RFC 3629 |
| `ByteDecoders.DecodeInvertsEncode` | packages/jian/src/internal.ts:14-134 | Decoding an encoded sequence of scalar values gives the sequence back |
| `ByteDecoders.DecodesToScalars` | packages/jian/src/internal.ts:14-134 | Only scalar values are ever put out |
| `ByteDecoders.ReencodingIsSubsequence` | packages/jian/src/internal.ts:7-13 | Re-encoding the output gives a subsequence of the input bytes |
| `LineReader.DecodeCutsAtCharacter` | packages/jian/src/local.ts:1086-1096 | Decoding can be cut on both sides of any well-formed character, so none of its bytes is dropped or read as part of another |
| `LineReader.LinesJoinToDecode` | packages/jian/src/local.ts:1086-1096 | The lines joined are the whole-file decode, in both encodings |
| `LineReader.LinesAreTerminated` | packages/jian/src/local.ts:1090-1096 | Every line but possibly the last ends in its only line feed, and the last has no other |
| `LineReader.ReadLines` | packages/jian/src/local.ts:1097-1153 | For every cut into chunks, carries included: the reader is stopped if and only if the signal fires before its last checkpoint; a reader that is not stopped yields the lines of the whole file, the unterminated last one included, and a stopped one exactly those in front of the checkpoint that stopped it |
| `LineReader.FindLineBreak` | packages/jian/src/local.ts:1115-1123 | Finds the first line feed on a code unit boundary |
| `LineReader.YieldLines` | packages/jian/src/local.ts:1136-1147 | One chunk: yields the lines that end in it and keeps the rest pending, one checkpoint a line, until the signal fires |
| `LineReader.TakeChunk` | packages/jian/src/local.ts:1128-1135 | Joins the carry and holds back an odd byte |
| `StreamAssembly.Generate` | packages/ltod/src/generate.ts:139-228 | The answer by what the stream holds: an index error names the first delta without an earlier header of its index; otherwise a message if and only if there is a header, or text that is not blank, or media with neither thinking nor text; and of the three other errors the one for what there is instead |
| `StreamAssembly.Assembler.Receive` | packages/ltod/src/generate.ts:139-185 | One part: routed, merged or replacing the pending one; the error exactly for an indexed delta without an earlier header |
| `StreamAssembly.Assembler.MergeInPlace` | packages/ltod/src/message.ts:141-172 | Which pairs merge and what the target becomes |
| `StreamAssembly.Assembler.FlushPart` | packages/ltod/src/generate.ts:286-311 | After a flush message and index map have all the stream brought so far |
| `StreamAssembly.RoutedOwner` | packages/ltod/src/generate.ts:150-172 | The index map leads to the call of the latest header with the index, or the delta has no owner |
| `StreamAssembly.KindsKept` | packages/ltod/src/generate.ts:194-228 | The message has content, calls, thinking, text or non-blank text exactly when the stream has |
| `StreamAssembly.Conclude` | packages/ltod/src/generate.ts:194-228 | The checks behind the loop, tool calls included in all three: the outcome of the whole stream, which `StreamOutcomes.AnswersIff` tells from its parts |
| `StreamOutcomes.AnswersIff` | packages/ltod/src/generate.ts:145-228 | Which streams are refused with which error, and which become a message, told from the places of their parts, both directions |
| `StreamOutcomes.UnknownIndexIff` | packages/ltod/src/generate.ts:150-172 | The index error is thrown if and only if some delta names an index that no header before it has, and for the first such delta |
| `StreamContent.MessageIsWhole` | packages/ltod/src/generate.ts:139-228 | A message has all content of its stream in order, in one part for each beginning, and one call for each header at the header's place, with the header's data and its own argument text |
| `StreamContent.ContentIsGrouped` | packages/ltod/src/message.ts:141-172 | The message has one content part for each piece of content that does not continue the one right before it, and it holds what its own pieces hold, in order |
| `StreamContent.ArgumentsAreConcatenated` | packages/ltod/src/message.ts:141-172 | The arguments of a call are its header's text with the texts of its own deltas behind it, and absent if and only if none of them has any |
| `StreamTheorems.ContentPreserved` | packages/ltod/src/message.ts:141-172 | Text, thinking, signatures and media all arrive once and in stream order |
| `StreamTheorems.CallHasOwnArguments` | packages/ltod/src/generate.ts:145-185 | A call has its header's data, and its arguments are the header's followed by its own deltas in order |
| `StreamTheorems.CallsFollowHeaders` | packages/ltod/src/generate.ts:286-309 | Each call belongs to one header, and calls are in header order |
| `StreamTheorems.CallAsIfAlone` | packages/ltod/src/generate.ts:145-172 | With routing by index, the call of a header is the one its own parts give when streamed alone |
| `StreamTheorems.InterleavingIrrelevant` | packages/ltod/src/generate.ts:145-172 | Two streams with the same parts for an index assemble the same call, however other calls are interleaved |
| `WatchdogSafety.NeverEarly` | packages/ltod/src/idle-iterator.ts:213-230 | In every run, a timeout is raised only at or after the deadline in force |
| `WatchdogSafety.AtMostOneTimer` | packages/ltod/src/idle-iterator.ts:169-195 | At every moment the runtime holds at most one timer, and none after the generator is left |
| `WatchdogSafety.SilentSourceIsCutOff` | packages/ltod/src/idle-iterator.ts:183-195 | While a race with a deadline is pending, the timeout can end it already or a timer is due within two stretches of the deadline |
| `WatchdogSafety.OnTimeIff` | packages/ltod/src/idle-iterator.ts:230-243 | Every pending race with a deadline is decided or has a timer due by the deadline, under all limits and in all runs, if and only if a stretch takes no time |
| `WatchdogSafety.RaceOnTimeIff` | packages/ltod/src/idle-iterator.ts:183-250 | Race by race: a timer armed for it is due at the deadline plus the time between the first two clock readings, or at the third if that is later; it is on time if and only if the first two agree and the third is no later than the deadline; a timer kept is due as before |
| `WatchdogSafety.LateTimer` | packages/ltod/src/idle-iterator.ts:230-243 | A run of one round in which the second clock reading makes the only timer due behind the deadline |
| `WatchdogSafety.FiredTimerEndsRace` | packages/ltod/src/idle-iterator.ts:169-182 | A timer that fires past the deadline enables the timeout of the pending race; one that fires early re-arms |
| `WatchdogSafety.RacesStartUndecided` | packages/ltod/src/idle-iterator.ts:200-250 | No race starts with a resolved timeout promise; an abort before it is in the race |
| `WatchdogSafety.AbortIsSeen` | packages/ltod/src/idle-iterator.ts:201-206 | Replacing the abort promise loses no abort: a pending race can end with it if and only if the signal has fired |
| `WatchdogSafety.OnlyProgressMovesDeadline` | packages/ltod/src/idle-iterator.ts:162-168 | Only a progress item moves the deadline, to one idle limit from then |
| `WatchdogSafety.OtherItemsNeverExtend` | packages/ltod/src/idle-iterator.ts:271-275 | Over any stretch of a run without progress items the deadline stays |
| `WatchdogSafety.KeepAlivesDoNotHelp` | packages/ltod/src/idle-iterator.ts:213-230 | A source that sends only such items is ended by the first round past the deadline, slow consumers included |
| `WatchdogSafety.SourceToldOnce` | packages/ltod/src/idle-iterator.ts:106-113 | The source's `return` is called exactly once, however the generator ends |
| `WatchdogExits.ExitIff` | packages/ltod/src/idle-iterator.ts:213-281 | In every run the generator has ended normally if and only if a race was decided by the end of the source and taken up, with the source's error if and only if by its failure, as aborted if and only if by the abort, with a timeout if and only if by the timer or because a round began past its deadline, and left by its consumer if and only if the consumer left |
| `WatchdogExits.ClosingStepIff` | packages/ltod/src/idle-iterator.ts:252-281 | The step that leaves the generator, told from the race it stands behind |
| `WatchdogExits.ItemsAreYielded` | packages/ltod/src/idle-iterator.ts:270-277 | The consumer is handed an item if and only if the race was decided by one |
| `WatchdogExits.DeadlineIff` | packages/ltod/src/idle-iterator.ts:160-168 | In every run the first-item limit is in force until a progress item is taken up, and from then on one idle limit from the last of them |
| `WatchdogRacers.PromisesAreReplaced` | packages/ltod/src/idle-iterator.ts:137-148 | However long the stream, no timeout promise is ever in more than 1024 races, and no abort promise before the abort |
| `WatchdogRacers.PromisesAreFew` | packages/ltod/src/idle-iterator.ts:10-16 | Promises are reused: two at the start, two every 1024 rounds and one for each timer that fires, at most |
| `WatchdogRacers.TimersAreFew` | packages/ltod/src/idle-iterator.ts:183-195 | When a stretch takes no time, one timer serves any number of items: all that were ever set, but two, have fired |
| `WatchdogSafety.StepKeepsInv` | packages/ltod/src/idle-iterator.ts:162-290 | Every step keeps the invariant of timer, promises, race and exit |
| `WatchdogGenerator.Generator.TimerFired` | packages/ltod/src/idle-iterator.ts:169-182 | The timer callback is one step of the machine |
| `WatchdogGenerator.Generator.Arm` | packages/ltod/src/idle-iterator.ts:183-195 | Arming keeps an early timer, replaces a late one and renews a fired promise |
| `WatchdogGenerator.Generator.RemintRacers` | packages/ltod/src/idle-iterator.ts:200-212 | The replacement of unfired promises every 1024 rounds |
| `WatchdogGenerator.Generator.Round` | packages/ltod/src/idle-iterator.ts:200-250 | A round from its top to the race, or to the timeout before it |
| `WatchdogGenerator.Generator.ResumeAfterRace` | packages/ltod/src/idle-iterator.ts:252-281 | What each outcome of the race does: the exit, or the item and the new deadline; `WatchdogExits.ExitIff` says over every run which outcome each exit stands for |
| `WatchdogGenerator.Generator.CloseIterator` | packages/ltod/src/idle-iterator.ts:106-113 | Repeated closing tells the source once |
| `KeysetPaging.ReadDescends` | packages/memory/src/store.ts:99-157 | Whatever is written between pages, rows come in strictly descending (recorded_at, rowid) order |
| `KeysetPaging.UntouchedReadOnce` | packages/memory/src/store.ts:106-115 | A matching memo that no write names is read exactly once, as it stands, by a read that ends |
| `KeysetPaging.RereadOnlyWhenOlder` | packages/memory/src/store.ts:679-711 | A memo that is not deleted is read a second time only with a smaller recorded_at; an update that keeps it is not re-read, thanks to the row identity bump |
| `KeysetPaging.QuietReadIsSorted` | packages/memory/src/store.ts:112-115 | On a quiet store the pages are what one sorted query without a limit gives |
| `KeysetPaging.QuietReadEnds` | packages/memory/src/store.ts:135-156 | On a quiet store the read ends after one page per full batch and a short one |
| `KeysetPaging.PageComplete` | packages/memory/src/store.ts:116-133 | A matching row is on the page, unless the page is full and ends above it |
| `KeysetContents.RowsWereThere` | packages/memory/src/store.ts:99-157 | Whatever is written between pages: every row that is read belongs to the project or to none, and stood in the store when one of the pages was read, as it is read |
| `KeysetContents.QuietReadIsExact` | packages/memory/src/store.ts:99-157 | On a quiet store a read that ends has returned exactly the rows of the project and those without one |
| `MemoTable.ApplyKeepsUniqueIds` | packages/memory/src/store.ts:427-445 | Every write keeps memo identities unique |
| `MemoTable.UpdateIsPatch` | packages/memory/src/store.ts:679-711 | An update puts the patched columns into the one memo with the identity, leaves its other columns and all other memos alone, and changes nothing for an identity the table does not have |
| `MemoTable.AppendAndDelete` | packages/memory/src/store.ts:621-660 | A new memo is stored as it is unless its identity is taken; a deletion takes out the memos of one identity |
| `MemoStore.Store.ReadMemos` | packages/memory/src/store.ts:99-157 | The cursor loop, with arbitrary writes of others between pages, yields the specified rows |
| `MemoStore.Store.AppendMemo` | packages/memory/src/store.ts:621-672 | Appends under the next row identity, or refuses a taken id |
| `MemoStore.Store.UpdateMemo` | packages/memory/src/store.ts:679-768 | Patches the row and moves it to the next row identity; tells whether the memo existed |
| `MemoStore.Store.DeleteMemo` | packages/memory/src/store.ts:772-796 | Afterwards no row has the id, and nothing else changed |
| `KnowledgeTheorems.SessionsKeepIndexes` | packages/knowledge/src/store.ts:219-240 | After any sequence of inserts, upserts, source deletions and transactions with rows placed under their own source, each index has exactly one entry per row, equal to the tokenised row |
| `KnowledgeTheorems.SessionExactIff` | packages/knowledge/src/store.ts:219-240 | For any session at all: the indexes are exact after every operation if and only if each deletion of a source cascades to rows that name that source alone |
| `KnowledgeTheorems.DeleteSourceKeepsIndexesIff` | packages/knowledge/src/store.ts:448-486 | Deleting a source keeps the indexes exact if and only if the cascade reaches no chunk or event that names another source |
| `KnowledgeTheorems.StrayChunkLeavesEntry` | packages/knowledge/src/store.ts:455-473 | A session in which a chunk of one source in a document of another leaves a stale entry behind |
| `KnowledgeTheorems.UpsertEntityKeepsIndexes` | packages/knowledge/src/store.ts:758-850 | A new entity, and a late description whose old entry had the empty text, keep the index exact |
| `KnowledgeTheorems.InsertChunkKeepsIndexes` | packages/knowledge/src/store.ts:559-596 | A chunk and its entry go in under one identity |
| `KnowledgeTheorems.InsertEventKeepsIndexes` | packages/knowledge/src/store.ts:646-688 | An event and its entry go in under one identity |
| `KnowledgeTheorems.DeleteSourceKeepsKeys` | packages/knowledge/src/store.ts:291-324 | After the cascade every remaining row still has its parents |
| `KnowledgeTheorems.RollbackLeavesNoTrace` | packages/knowledge/src/store.ts:214-240 | A rolled-back transaction leaves tables and indexes as they were |
| `KnowledgeRows.EntityIsStored` | packages/knowledge/src/store.ts:758-850 | An entity told again keeps its row and every column but a missing description, which it takes over; told for the first time it is stored if its source exists; no other row changes |
| `KnowledgeRows.ChunkIsStored` | packages/knowledge/src/store.ts:559-609 | A chunk is stored if and only if its identity is free and its source and document exist; nothing else changes |
| `KnowledgeRows.EventIsStored` | packages/knowledge/src/store.ts:646-705 | An event is stored if and only if its identity is free and its source, document and chunk exist; nothing else changes |
| `KnowledgeRows.IndexedColumns` | packages/knowledge/src/store.ts:581-596 | In an exact index a chunk is found under heading and content, an event under title, summary and content, an entity under name and description, null counting as empty |
| `KnowledgeRows.CascadeIsLeast` | packages/knowledge/src/store.ts:291-336 | Deleting a source takes out as little as the keys allow: every part of the library that does without the source and whose rows have their parents is still there |
| `KnowledgeRows.SessionIsItsOperations` | packages/knowledge/src/store.ts:214-240 | After any session the library is what its operations have made of the empty one, in order, without those of rolled-back transactions |
| `KnowledgeRows.SessionsKeepUnique` | packages/knowledge/src/store.ts:326-337 | In every session chunk identities and entity names stay unique, and names normalised |
| `FtsIndex.DeleteAgreesIff` | packages/knowledge/src/store.ts:449-454 | Delete commands for some of the lost rows leave an exact index if and only if they name all of them |
| `FtsIndex.ReplaceAgrees` | packages/knowledge/src/store.ts:789-812 | Old entry out, new entry in keeps the index exact |
| `FtsIndex.WithoutCount` | packages/knowledge/src/store.ts:464-483 | How often each entry is left after a run of delete commands |
| `KnowledgeStore.Store.DeleteSourceRow` | packages/knowledge/src/store.ts:448-486 | Rows read first, cascade, then delete commands: exactly the specified deletion |
| `KnowledgeStore.Store.UpsertEntityRow` | packages/knowledge/src/store.ts:758-850 | The upsert with its refresh of the index entry |
| `KnowledgeStore.Store.InsertChunkRow` | packages/knowledge/src/store.ts:559-609 | The row and its entry, or a refusal by the keys |
| `KnowledgeStore.Store.InsertEventRow` | packages/knowledge/src/store.ts:646-705 | The row and its entry, or a refusal by the keys |
| `KnowledgeStore.Store.RollbackTransaction` | packages/knowledge/src/store.ts:233-240 | Restores everything the transaction changed |
| `ChunkingTheorems.FragmentsKeepText` | packages/knowledge/src/chunking.ts:187-242 | Splitting an oversized section keeps its non-blank text in order, but for terminators in front of what goes to the sentence cut |
| `ChunkingTheorems.NothingLost` | packages/knowledge/src/chunking.ts:187-310 | A section loses nothing if and only if it, or when it is cut by paragraphs every oversized paragraph of it, does not open with a terminator in front of other text |
| `ChunkingTheorems.OpeningMarkIsLost` | packages/knowledge/src/chunking.ts:187-310 | An exclamation mark in front of letters, oversized from 1920 letters on, does not arrive |
| `ChunkingTheorems.FragmentsBounded` | packages/knowledge/src/chunking.ts:187-304 | Raw fragments are non-empty and at most 2878 units, 2399 on the sentence path |
| `ChunkingTheorems.ParagraphBoundIsReached` | packages/knowledge/src/chunking.ts:193-239 | The text of 481 four-letter paragraphs gives a fragment of exactly 2878 units |
| `ChunkingTheorems.SentenceBoundIsReached` | packages/knowledge/src/chunking.ts:248-304 | The line of 481 four-unit sentences gives a fragment of exactly 2399 units |
| `ChunkingTheorems.DocumentSections` | packages/knowledge/src/chunking.ts:22-80 | The sections of a document have ranks 0, 1, 2, ..., each under a heading of it, with contents of at most 2878 units |
| `DocumentSections.SectionsAreStretches` | packages/knowledge/src/chunking.ts:22-80 | The sections of a document, before any is split, are its stretches between headings outside of fences, in order: each with the trimmed text of its lines and level and title of the heading in front of it; left out are only stretches without text and a preamble that is stripped to nothing |
| `DocumentSections.ContentsAreStripped` | packages/knowledge/src/chunking.ts:248-304 | In every section of a document, split or not, the content is its own raw text without the markup |
| `TextPieces.SplitIsAtBlankLines` | packages/knowledge/src/chunking.ts:194 | A text is cut into paragraphs exactly at its runs of two newlines or more: joined with those runs the parts are the text, and no part has a blank line in it |
| `TextPieces.LinesRoundTrip` | packages/knowledge/src/chunking.ts:34-35 | The joined text of a buffer, taken apart at its newlines, is the lines of the buffer |
| `DocumentText.DocumentKeepsText` | packages/knowledge/src/chunking.ts:22-80 | The sections hold the text of all lines that are no headings, in order and once, but for a text in front of the first heading that is stripped to nothing |
| `DocumentText.ChunksKeepTextIff` | packages/knowledge/src/chunking.ts:22-323 | From the lines to the final chunks: the text that arrives in the sections arrives in the chunks, in order and once, if and only if no section that is cut opens with terminators where that loses them |
| `ChunkingTheorems.TightHasFragments` | packages/knowledge/src/chunking.ts:241-303 | A section with text is cut into at least one fragment, so the fallbacks are not taken |
| `ChunkText.SentencesKeep` | packages/knowledge/src/chunking.ts:307-310 | Cutting into sentences loses the terminators in front of the text and nothing else |
| `ChunkText.CutKeeps` | packages/knowledge/src/chunking.ts:313-323 | The hard cut loses blanks only and makes pieces of at most 1920 units |
| `ChunkText.ParagraphsKeep` | packages/knowledge/src/chunking.ts:193-194 | Cutting into paragraphs loses blanks only |
| `Chunking.Split` | packages/knowledge/src/chunking.ts:187-242 | The paragraph loop, its flushes and fallbacks |
| `Chunking.SplitBySentences` | packages/knowledge/src/chunking.ts:248-304 | The sentence loop with its buffer |
| `Chunking.SplitSentences` | packages/knowledge/src/chunking.ts:307-310 | The matches of the sentence pattern |
| `Chunking.SplitByCharLimit` | packages/knowledge/src/chunking.ts:313-323 | The hard cut in a loop |
| `Chunking.MarkdownChunker.Chunk` | packages/knowledge/src/chunking.ts:22-80 | The line loop with fences, headings and the flush closure |
| `ConsolidationSafety.SurvivesCrashIff` | packages/memory/src/consolidator.ts:99-235 | For any plan and any store at the time of applying it: a memo survives every crash point, itself or in a merged memo with a conclusion, if and only if the plan does not name it for deletion or has it unchanged in a group with a conclusion |
| `ConsolidationSafety.RulesSurviveCrash` | packages/memory/src/consolidator.ts:99-235 | Cut the writes of a plan off anywhere: every distilled rule not touched since the plan was built is still stored, or a merged memo of its group with a non-empty conclusion is |
| `ConsolidationSafety.LateRuleIsLost` | packages/memory/src/consolidator.ts:99-235 | A stale memo its user has adopted since the plan was built is deleted all the same |
| `ConsolidationSafety.PlannedRuleIsSpared` | packages/memory/src/consolidator.ts:147-155 | A plan names a rule that is as it was only in a group whose conclusion has been written |
| `ConsolidationSafety.AdditionsShape` | packages/memory/src/consolidator.ts:107-204 | All merged memos are stored before anything is deleted, under identities of their own |
| `ConsolidationApply.ApplyConsolidation` | packages/memory/src/consolidator.ts:99-235 | The loops make the specified additions and then the specified deletions |
| `ConsolidationApply.CollectLineage` | packages/memory/src/consolidator.ts:242-253 | The loop computes the noted, sorted and cut lineage |
| `ConsolidationApply.LineageShape` | packages/memory/src/consolidator.ts:237-253 | A lineage has at most 100 entries, no identity twice, oldest first, cut from a list with every memo of the group; nothing cut off is newer |
| `ConsolidationLineage.LineageNames` | packages/memory/src/consolidator.ts:237-253 | The list a lineage is cut from names every memo of the group, everything their own lineages name, and nothing else, each identity with the entry of the first memo that names it |
| `ConsolidationKept.MemoStaysIff` | packages/memory/src/consolidator.ts:99-235 | When all writes are done a planned memo is in the store as it was if and only if it is not merged, not completed for more than seven days, and not idle, neither completed nor blocked, for more than thirty; rules go only when merged |
| `ConsolidationKept.DoomedIff` | packages/memory/src/consolidator.ts:505-528 | A plan names a memo for deletion exactly under those conditions |
| `ConsolidationKept.ExperienceSurvivesCrash` | packages/memory/src/consolidator.ts:107-160 | Wherever the writes break off, what worked and what failed for a resolved or stale memo is in the store: in the memo itself or, word for word, in its archive |
| `ConsolidationKept.ArchiveIff` | packages/memory/src/consolidator.ts:107-153 | An archive is written if and only if some memo of the list has experience to keep, and it has all of it in order |
| `ConsolidationKept.MergedIsStored` | packages/memory/src/consolidator.ts:189-215 | When all writes are done each merged group has its memo in the store, with the texts written for it, the trimmed conclusion, the time and the lineage |
| `Consolidation.FindDuplicateGroups` | packages/memory/src/consolidator.ts:260-295 | The nested loops compute the specified groups |
| `Consolidation.GroupsAreGood` | packages/memory/src/consolidator.ts:260-295 | Groups are disjoint, have at least two memos of the store, and each later member is similar to an earlier one |
| `Consolidation.UngroupedAreDifferent` | packages/memory/src/consolidator.ts:260-295 | Two memos in no group are not similar |
| `CronRelayTheorems.AnswerIsFinalText` | apps/scream-code/src/line/cron-relay.ts:110-125 | A delivered answer is the trimmed final text of the turn collected for its fire, up to the event that settled it |
| `CronRelayTheorems.OneResultPerFire` | apps/scream-code/src/line/cron-relay.ts:10-13 | At most one result is sent for a fire |
| `CronRelayTheorems.DroppedFiresAreSilent` | apps/scream-code/src/line/cron-relay.ts:52-57 | A fire that arrives busy or during a collection is never mentioned |
| `CronRelayTheorems.SettledFireIsAnswered` | apps/scream-code/src/line/cron-relay.ts:58-62 | A collection that runs undisturbed to its end gets its result, or its failure notice, at that very event |
| `CronRelayTheorems.KeepsCollecting` | apps/scream-code/src/line/cron-relay.ts:99-108 | Undisturbed and unsettled, the accepted fire stays the one collected, with all its events |
| `CronRelayNotices.NoticeIffAccepted` | apps/scream-code/src/line/cron-relay.ts:52-79 | Every fire that is taken up with a notice sends that notice exactly once, and no other notice is ever sent |
| `CronRelayNotices.AcceptedIff` | apps/scream-code/src/line/cron-relay.ts:52-57 | A fire is taken up if and only if no user turn runs and no earlier fire is still collected, undisturbed and unsettled |
| `CronRelayNotices.ResultIff` | apps/scream-code/src/line/cron-relay.ts:110-125 | A result is sent if and only if its fire was taken up and its collection ran undisturbed to an end: the trimmed final text, or without one the failure notice |
| `CronRelayNotices.OneGuardAtMost` | apps/scream-code/src/line/cron-relay.ts:64-70 | The runtime holds the guard of the fire being collected and no other |
| `TurnAnswers.AnswerIsFinal` | apps/scream-code/src/line/turn-collector.ts:34-72 | The collected answer is what the first turn to start says behind its last tool call, and nothing of any other turn or agent |
| `CronRelay.CronRelay.OnFire` | apps/scream-code/src/line/cron-relay.ts:52-80 | Taking up a fire, or not; the replayed start and the notice |
| `CronRelay.CronRelay.OnEvent` | apps/scream-code/src/line/cron-relay.ts:99-108 | An event, or the user taking the chat over |
| `CronRelay.CronRelay.OnGuard` | apps/scream-code/src/line/cron-relay.ts:64-70 | The guard gives up its own collection only |
| `CronRelay.CronRelay.OnDispose` | apps/scream-code/src/line/cron-relay.ts:87-97 | Drops the collection and its guard |
| `TurnCollector.LineTurnCollector.HandleEvent` | apps/scream-code/src/line/turn-collector.ts:34-72 | The collected text is the final answer of the events so far; settles exactly on a main error or the end of the collected turn |
| `TurnCollector.OneMoreEvent` | apps/scream-code/src/line/turn-collector.ts:58-66 | What one more event does to the text behind the last tool call of the collected turn |
| `EmbeddingBatches.Embed` | packages/memory/src/embeddings.ts:281-336 | The vector at place i is that of text i, whatever batch it went through, in slices of at most 16, for every network that ignores what is padded behind a row |
| `EmbeddingBatches.LengthSortRearranges` | packages/memory/src/embeddings.ts:292-296 | The length sort has the same entries, each once, shortest first |
| `StableSort.SortIsStable` | packages/memory/src/embeddings.ts:292-296 | Entries of equal length stay in their order |
| `EmbeddingBatches.RowOfFlat` | packages/memory/src/embeddings.ts:304-311 | Index arithmetic on the flat arrays finds each row |
| `EmbeddingBatches.Fill` | packages/memory/src/embeddings.ts:301-311 | The nested loops fill the flat input row by row |
| `EmbeddingBatches.RunGroup` | packages/memory/src/embeddings.ts:298-330 | A padded batch gives each text the vector of its own tokens |
| `EmbeddingBatches.Truncate` | packages/memory/src/embeddings.ts:222-243 | Keeps lists that fit, and of longer ones the first and the last token, in 512 places |
| `LikePattern.PatternFindsSubstrings` | packages/memory/src/store.ts:1206-1208 | Read by the rules of LIKE, the pattern matches exactly the texts the value occurs in, ASCII case aside |
| `LikePattern.PassesAreEscape` | packages/memory/src/store.ts:1207 | The three replacements in sequence are one escape per character |
| `Quoting.ShellReadsBack` | apps/scream-code/src/line/session-driver.ts:71-73 | By section 2.2 of the POSIX.1-2017 Shell Command Language a quoted value is one word and that word is the value |
| `Quoting.CmdReadsBack` | packages/jian/src/local.ts:369-371 | A built line, stripped of its outer pair and cut with toggling quotes, is the command and every argument, with no metacharacter outside quotes |
| `Quoting.CmdRefusedIff` | packages/jian/src/local.ts:344-355 | A line is refused if and only if the command or an argument has a double quote or a line break |

## Left out

- Forced closing of a session, the stop escalation timers, the orphaned-call path and shutdown: they close sessions outside the lock on purpose.
- A `/stop` that finds a body still awaiting its session, before the turn is registered: the epoch of later jobs is bumped, the body itself goes on.
- The turn's own prompt, deadline and reply texts: a turn body is a choice of steps, and only whether it replies is modelled.
- Directories without an inode: the code gives the termination guarantee up for them, and the model gives every directory an identity.
- One-segment glob patterns and path joining: a segment is a predicate on names, the same for all trees, and what names there are is a parameter.
- `stat` and `readdir` that change between two calls: a walk sees one state of the file system.
- The `strict` and `replace` readers and the other encodings of the file layer.
- LineReader.ReadLines: a trailing run of bytes that decodes to nothing is a line of its own, the empty one, as in the code.
- Part callbacks, the abort checks between parts and usage figures of `generate`.
- Watchdog: an abort before the first round, the error messages and whether a timeout is named after the first item or the idle limit.
- The weights, scores, tag handling and the contentless index of the memory store; the exact contents of the latter depend on the database engine.
- KeysetPaging.UntouchedReadOnce: says nothing of a read that never ends because older memos keep being appended.
- The vector columns, metadata, fingerprints and migrations of the knowledge store, and foreign-key relations between events and entities, which have no text index.
- `toFtsText` and `normalizeName`: any functions will do, the first with the empty text for the empty text.
- `stripMarkdown`, the heading pattern and the fence pattern: any functions will do, the first as long as it never lengthens a text.
- `chunkText`, the chunker for plain text.
- The keyword similarity, the outcome checks and the merged texts of consolidation, and its counters, which count overlapping lists twice.
- ConsolidationSafety.SurvivesCrashIff: for a store that changes only through the plan's own writes while the plan is applied.
- Logging and the platform's delivery results in the relay: a message counts as sent when it is handed to `send`.
- EmbeddingBatches.Embed: the network is taken to compute each row by itself and to ignore the padding behind its tokens; a text without any token, which the tokenizer never produces, is left open, and rounding is not modelled.
- Quoting.CmdReadsBack: `%VAR%` is expanded inside quotes by `cmd` itself, and a shim that cuts its own arguments at commas, semicolons or equals signs is not modelled.
- User interface, option parsing, configuration, remote calls and the evaluation programs of the repository.
