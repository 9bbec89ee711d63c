# AgentParty protocols and codecs in Dafny

A model of the parts of AgentParty's CLI and release scripts whose guarantees run over whole
executions: several processes on one state file, lost responses, reconnects, arbitrary chunk
boundaries, failing file systems. The proofs are about every input, every run and every
interleaving of the model; `dafny verify dfyconfig.toml` checks them all.

## What is modelled

| files | what |
|---|---|
| `ConsumeLock` | the lock file of the Claude Cross-session gate, one file-system call at a time, with stale-lock reclaim and crashes |
| `GateRules`, `GateAddresses`, `GateRun`, `GateExact`, `GateBarrier`, `GateWitness`, `GateSystem` | the gate's addresses and decisions, when exactly a call passes, any number of hook processes interleaved on its files, the same-batch send barrier, the runs that pass it, and the gate on its lock files |
| `NativeSession` | at-most-once dispatch of ChatGPT turns over lost responses, timeouts, closes and failed writes |
| `IpcCodec`, `PipeQueue` | the length-prefixed IPC codec and the partial-write queue under it |
| `Replica`, `JsonPatch` | the revisioned replica of conversation states and the patches applied to it |
| `FrameQueue`, `ClientModel`, `ClientLife`, `ClientRevisions`, `ClientConnection` | the WebSocket client: frame queue, reconnect state machine, how it lives and ends, cursor, revision and replay book-keeping |
| `TarFormat`, `TarRoundTrip`, `TarFiles` | the ustar writer and the reader in another script (IEEE Std 1003.1, pax, "ustar Interchange Format") |
| `StopWake` | the Stop-hook wake scheduler and its seen list |
| `Splitting`, `LinePump`, `StreamJson`, `StreamChunks`, `JsonLines`, `StreamParser` | stream processors that must not depend on chunk boundaries, and the streams for which one does |
| `StreamEvidence`, `StreamVerdict` | the online send-result barrier and the offline evidence, against each other and against what they are to establish |
| `SyncVersion` | the multi-file version update as a transaction under faults |
| `Decimals`, `SemVer`, `PrunePlan` | the two version comparators and the asset prune plan |
| `Calendar` | the publication-date check against the proleptic Gregorian calendar |

A component whose source changes state step by step is a class or a method, proved against
functions and predicates on values; the whole-run theorems are lemmas about those.

## What the code does not guarantee

Each of these is a lemma with a concrete or constructed run, beside the exact condition.

- The consume lock excludes if and only if a section plus the pause between `lstat` and
  `Date.now()` fits the 10 s threshold and nobody dies holding the reclaim file
  (`ConsumeLock.ExclusionExactly`). The age is computed from a clock read after the `lstat`, so
  the pause counts, in a late `dropStaleLockFile` as well, which then removes a live reclaim
  file (`ConsumeLock.SlowAgeCheckBreaksExclusion`); after a crash in a reclaim section two
  reclaimers can meet (`ConsumeLock.CrashInReclaimBreaksExclusion`).
- The send barrier holds in every run if and only if hooks read the gate's files within 5 s of
  their start, always find the armed file and can always read the state
  (`GateWitness.BarrierExactly`). A hook that starts more than 5 s before the state it later reads
  was written takes that state for one from the future, drops it and erases the barrier
  (`GateWitness.StalledHookPasses`); so does one that finds the state unreadable
  (`GateWitness.TornStatePasses`); one that does not find the armed file takes the session for an
  unarmed one (`GateWitness.BlindHookPasses`).
- A revision frame is delivered again when its mark returns after another one, though the source
  means to deliver each revision once (`ClientRevisions.DeliveredTwice`); each is delivered once
  exactly when no mark returns (`ClientRevisions.OnceExactly`).
- Patches that fail half way stay half applied under the old revision number until a snapshot
  arrives (`JsonPatch.HalfAppliedPatchesCorrupt`, `Replica.AgreementKeptExactly`).
- An absolute name of 101 bytes with no other separator is split into an empty prefix and does
  not rejoin (`TarFormat.SplitJoins`, `TarFormat.SlashLost`); bundle names are relative.
- A local debt older than seven days and above the query position silences the wake hook for as
  long as it is there (`StopWake.StaleDebtStarves`, `StopWake.StarvedForever`).
- A line over 4 MiB is dropped only up to the end of the chunk in which it exceeds the limit: what
  follows is handled as a line of its own if it fits. Which events are handled depends on the
  chunks exactly when such a line, an unfinished last one included, has a tail that starts past
  the limit, fits, and is an event (`StreamChunks.EventsExactly`): a message after too long a
  beginning is printed if a chunk ends before it, and not otherwise
  (`StreamChunks.JunkThenMessage`). A JSON object alone on its line is not such a line, unless
  more than 4 MiB of blanks come before it: no proper tail of an object is one
  (`JsonLines.WholeObjectsAreSame`).
- A malformed init event before the result keeps the online barrier closed although the offline
  evidence accepts the stream (`StreamEvidence.BarrierAgrees`,
  `StreamEvidence.BadInitNeverReleases`).
- Numbers of a version are compared as doubles. `compareVersionPrecedence` is not an order on
  numeric identifiers that round to the same double (`SemVer.ReleaseFlipsExactly`,
  `SemVer.LargeNumbersClash`); `compareSemver` is one, but passes over such a difference and may
  then decide the other way (`SemVer.LargeCoreTurnsRound`). What a caller can check beforehand is
  that the first difference is not two numbers equal as doubles: exactly then the comparator
  decides there (`SemVer.StopsAtFirst`), and as item 11 does (`SemVer.PruneAgreesExactly`).

## Model

| member | source | states |
|---|---|---|
| ConsumeLock.ExclusionExactly | cli/src/claude-cross-session-gate.ts:547-611 | in every interleaving of any number of hook processes at most one live process is in the section and each removes only its own lock, if and only if section and clock pause fit 10 s and none dies in the reclaim section |
| ConsumeLock.SlowAgeCheckBreaksExclusion | cli/src/claude-cross-session-gate.ts:547-611 | for every timing whose section plus pause exceed 10 s, a reachable run breaks exclusion: three processes when a late check meets a new lock, five when a late drop removes a live reclaim file |
| ConsumeLock.CrashInReclaimBreaksExclusion | cli/src/claude-cross-session-gate.ts:567-596 | at any timing, one crash in each section leads six processes to two lock holders |
| ConsumeLock.StaleLockIsRecovered | cli/src/claude-cross-session-gate.ts:547-611 | a lock left stale by a crash is cleared and retaken by a single process in seven calls |
| GateRules.CandidatesFromPeers | cli/src/claude-cross-session-gate.ts:413-445 | the map built in one pass yields the specified candidates |
| GateRules.CandidatesAreUndisputed | cli/src/claude-cross-session-gate.ts:413-445 | a ref bound to two identities yields no candidate; every other row yields exactly one, distinct refs, at most 64, all of them below the cap |
| GateRules.ListingsExtendCandidates | cli/src/claude-cross-session-gate.ts:482-493 | listings are exactly the candidates with an address, each with that address |
| GateRules.BridgeTarget | cli/src/claude-cross-session-gate.ts:613-631 | with one unambiguous target, the guard on mentioned addresses and the one on the target agree |
| GateRules.BarrierReadExactly | cli/src/claude-cross-session-gate.ts:292-343 | a sealed barrier blocks a main-session tool exactly while it has not expired and the reader's clock is at most 5 s behind the write |
| GateAddresses.AddressesExactly | cli/src/claude-cross-session-gate.ts:30 | generated addresses are exactly apcs-, a name of 1 to 46 characters that begins with a letter or digit, a hyphen and twelve lower-case hexadecimal digits |
| GateAddresses.ContainsExactly | cli/src/claude-cross-session-gate.ts:36-37 | a text contains an address exactly where one stands that no longer name runs into |
| GateRun.AllowedSendsAreJustified | cli/src/claude-cross-session-gate.ts:649-901 | in every run every allowed send to a bridge address rests on three pairs of entries in order: the main-session PreToolUse of peers, ListAgents and peer_check with a tool id, and the PostToolBatch of exactly that one call; in one armed session, about one candidate that its rows leave undisputed, listed under the address that is the send's target and confirmed, at most 30 s before; and it carries a message of 1 to 512 bytes |
| GateRun.SendsNeedFreshChecks | cli/src/claude-cross-session-gate.ts:722-836 | between two allowed sends lie a fresh ListAgents call with its result and after it a fresh peer_check call with its result, on which the second send rests in the same sense |
| GateExact.FileSaysLast | cli/src/claude-cross-session-gate.ts:649-901 | in every reachable state permit, barrier and pending tool are exactly what the last entry that wrote left: a permit after a confirmed check, a barrier after a send, a pending tool after a question or a send |
| GateExact.SendPassesExactly | cli/src/claude-cross-session-gate.ts:726-836 | in every reachable state a send to a bridge address passes if and only if the hook knows its armed session and state, the last thing written is a confirmed check for exactly its target at most 30 s ago, and it carries a message of 1 to 512 bytes and a tool id |
| GateExact.OtherSendPassesExactly | cli/src/claude-cross-session-gate.ts:735-764 | a send to anybody else passes if and only if no send of the last 30 s is the last thing written |
| GateExact.ToolPassesExactly | cli/src/claude-cross-session-gate.ts:658-722 | any other tool passes if and only if no such send stands, it is no lookalike with a bridge address, and it carries a tool id where it goes on with the chain |
| GateBarrier.BarrierHolds | cli/src/claude-cross-session-gate.ts:679-757 | in every run whose hooks read within 5 s of their start and find the files, after an allowed send no main-session tool of the armed session passes before the batch carrying that send, its expiry or a new SessionStart |
| GateWitness.BarrierExactly | cli/src/claude-cross-session-gate.ts:292-343 | the barrier holds in every run if and only if every read comes within 5 s of the hook's start, finds the armed file and can read the state |
| GateWitness.StalledHookPasses | cli/src/claude-cross-session-gate.ts:303-325 | at any other delay a reachable run in which a tool passes a standing barrier and the barrier is erased |
| GateWitness.BlindHookPasses | cli/src/claude-cross-session-gate.ts:649-668 | if a read may miss the armed file, a reachable run in which a tool passes a standing barrier |
| GateWitness.TornStatePasses | cli/src/claude-cross-session-gate.ts:292-330 | if the state may be unreadable, a reachable run in which a tool passes a standing barrier and the barrier is erased |
| GateWitness.SendHappens | cli/src/claude-cross-session-gate.ts:649-901 | at every pace a run in which a send to a bridge address is allowed |
| GateSystem.LockFilesRefineMutex | cli/src/claude-cross-session-gate.ts:547-611 | hook processes that take consume.lock by the calls of ConsumeLock: whenever section and clock pause fit 10 s and none dies in the reclaim section, every run is a run of the gate with a mutex that only a dead holder loses |
| GateSystem.SendsOnLockFiles | cli/src/claude-cross-session-gate.ts:547-901 | so on the lock files every allowed send is earned in the sense of GateRun |
| GateSystem.BarrierOnLockFiles | cli/src/claude-cross-session-gate.ts:547-757 | and the send barrier holds for hooks that read in time |
| GateBarrier.SealedDecision | cli/src/claude-cross-session-gate.ts:778-863 | under a sealed barrier a hook in time blocks every tool and only the batch carrying the send's id clears it |
| NativeSession.AtMostOncePerRefusal | cli/src/codex-native-session.ts:101-208 | in every interleaving, between two start-turn frames for one id there is an explicit refusal |
| NativeSession.StartedIsRemembered | cli/src/codex-native-session.ts:112-208 | an id whose turn may have started is a known turn, an uncertain id or the submission in doubt until the controller closes |
| NativeSession.RefusedIsForgotten | cli/src/codex-native-session.ts:150-208 | a refused or unsent id is forgotten, and it cannot have started |
| NativeSession.RememberedExactly | cli/src/codex-native-session.ts:112-208 | while the controller is open, between submissions: an id is a known turn if and only if the owner named or showed its turn, and uncertain if and only if a frame for it was handed to a socket and not refused and no turn of it is known |
| NativeSession.ToldTruly | cli/src/codex-native-session.ts:112-160 | in every run each dispatch is true when it is told: started and duplicate of a known turn, uncertain of one tried and not known, failed of one neither |
| NativeSession.AnsweredInOrder | cli/src/codex-native-session.ts:101-110 | over any run the submissions are answered once each, in the order in which they came |
| NativeSession.TurnStarts | cli/src/codex-native-session.ts:112-160 | a run in which a frame is written and answered with a turn, told as started and remembered |
| NativeSession.LostAnswer | cli/src/codex-native-session.ts:135-186 | a run in which the answer is lost, told as uncertain, and a follower later finds the turn |
| NativeSession.WriteIsRecorded | cli/src/codex-desktop-ipc.ts:475-514 | a frame counts as written exactly if bytes of it left, and as handed over if none did; a close inside the write closes the client |
| NativeSession.CloseForgets | cli/src/codex-native-session.ts:235-240 | closing forgets what is uncertain, closes every client in use and leaves a waiting start in doubt; known turns stay |
| NativeSession.FollowersEnd | cli/src/codex-native-session.ts:162-208 | a follower makes an uncertain id a known turn, and is gone when it completes or gives up |
| NativeSession.NothingWrittenAfterClose | cli/src/codex-desktop-ipc.ts:468-523 | after close no frame is written in any step |
| IpcCodec.DecodeConcat | cli/src/codex-desktop-ipc.ts:536-565 | decoding a chunk after another is decoding both at once: same messages, same residue, same failure |
| IpcCodec.Receiver.HandleData | cli/src/codex-desktop-ipc.ts:536-565 | the buffer loop keeps the receiver equal to the decoding of the whole stream so far |
| IpcCodec.FeedAll | cli/src/codex-desktop-ipc.ts:536-565 | for any chunks the receiver ends as the decoding of their concatenation |
| IpcCodec.PrefixDecodes | cli/src/codex-desktop-ipc.ts:244-253 | any prefix of encoded frames decodes to the first messages, in order, with the unfinished frame as residue |
| IpcCodec.RoundTrip | cli/src/codex-desktop-ipc.ts:244-253 | encoded frames decode to exactly the messages, nothing left |
| IpcCodec.LittleEndian | cli/src/codex-desktop-ipc.ts:250 | lengths are little-endian |
| IpcCodec.SendsExactly | cli/src/codex-desktop-ipc.ts:244-248 | frames of 1 byte to 64 MiB are sent, and no others |
| IpcCodec.BadFramesEnd | cli/src/codex-desktop-ipc.ts:536-565 | an announced length of zero or more than 64 MiB, or a payload that does not parse, ends the stream with nothing handed on |
| IpcCodec.PartsWait | cli/src/codex-desktop-ipc.ts:536-545 | until four bytes and then the announced ones are there, the stream waits |
| PipeQueue.FlushConserves | cli/src/codex-desktop-ipc-windows.ts:387-398 | bytes taken followed by bytes queued are the bytes there were, under every partial-write schedule |
| PipeQueue.FlushStopsAtPipe | cli/src/codex-desktop-ipc-windows.ts:387-398 | the queue drains entirely when the pipe takes everything |
| PipeQueue.FlushThrowsExactly | cli/src/codex-desktop-ipc-windows.ts:387-398 | a flush uses a first part of the pipe's behaviour and throws exactly if that ends with a throw |
| PipeQueue.WindowsPipeStream.Write | cli/src/codex-desktop-ipc-windows.ts:373-385 | taken plus queued stays all bytes written; a throwing pipe closes once, from inside the call |
| PipeQueue.WindowsPipeStream.Pump | cli/src/codex-desktop-ipc-windows.ts:421-445 | the timer's turn takes exactly the next part of the queue, and closes the stream, once, exactly when the pipe throws |
| PipeQueue.SendAndReceive | cli/src/codex-desktop-ipc-windows.ts:373-413 | under any order of sends, timer turns and a destruction, frames through the queue and back in any cut arrive as the first messages, in order, intact |
| Replica.ReplicaClient.HandleChange | cli/src/codex-desktop-ipc.ts:578-605 | the loop patching the stored state computes the specified states and refollow |
| Replica.ReplicaAgrees | cli/src/codex-desktop-ipc.ts:578-605 | whatever well-formed broadcasts arrive, lost, repeated or reordered, every stored state is the owner's at its revision |
| Replica.AgreementKeptExactly | cli/src/codex-desktop-ipc.ts:578-605 | for any change at all, exactly when agreement survives it |
| Replica.GapsAreNoticed | cli/src/codex-desktop-ipc.ts:578-605 | when any of the owner's changes arrive in any order, however often, a replica ends at the owner's state of a revision not past the first change it missed, having asked for a snapshot once for each change not in its turn: never if and only if what arrived are the next changes, each once and in order |
| Replica.CatchesUp | cli/src/codex-desktop-ipc.ts:578-605 | a snapshot and the changes after it bring the replica to the latest revision |
| Replica.PatchesInTurn | cli/src/codex-desktop-ipc.ts:594-603 | patches are applied one after another, each to what the one before left, up to the first that does not apply |
| Replica.SnapshotSettles | cli/src/codex-desktop-ipc.ts:578-605 | whatever was held or missed, a snapshot and all changes after it bring the latest state, and nothing is asked for |
| JsonPatch.AppliesExactly | cli/src/codex-desktop-ipc.ts:690-706 | a patch applies if and only if its operation is known and its path leads to an object, or to an array under a number |
| JsonPatch.PatchAppliesExactly | cli/src/codex-desktop-ipc.ts:670-706 | a whole patch applies if and only if its path is not empty, holds strings and numbers only, names no prototype, and leads to a container that takes it |
| JsonPatch.ReadsBackExactly | cli/src/codex-desktop-ipc.ts:695-706 | an added or replaced value is found under its path, except exactly an addition beyond an array's end |
| JsonPatch.LeavesAlone | cli/src/codex-desktop-ipc.ts:690-706 | everything apart from the patched place is unchanged |
| JsonPatch.RemoveUndoesAddExactly | cli/src/codex-desktop-ipc.ts:696-706 | remove undoes add, except exactly over an existing field or beyond an array's end |
| JsonPatch.HalfAppliedPatchesCorrupt | cli/src/codex-desktop-ipc.ts:597-603 | a list of patches failing half way leaves a state of no revision and asks for a snapshot |
| FrameQueues.FrameQueue.Push | cli/src/client.ts:17-22 | the frame goes to the oldest waiter or to the end of the buffer; no frame lost, never buffer and waiters together |
| FrameQueues.FrameQueue.Next | cli/src/client.ts:39-51 | tickets are answered in FIFO order; with nothing left, by the end of a queue that ended and by the error of one that failed |
| FrameQueues.FrameQueue.Prepend | cli/src/client.ts:59-71 | frames go before the buffered ones, waiting readers first, unless the queue is done |
| FrameQueues.FrameQueue.EndQueue | cli/src/client.ts:24-28 | ending answers every waiter with the end, once, and keeps the buffer |
| FrameQueues.FrameQueue.Fail | cli/src/client.ts:30-37 | failing drops the buffer and answers every waiter with the error, once |
| ClientModel.StepKeepsBooked | cli/src/client.ts:608-619 | in every step the cursor never falls and moves only by ack or sent, and the unacked book stays above it, keyed as delivered, within its limit |
| ClientModel.NeverLiveButDeaf | cli/src/client.ts:705-750 | in every run, not closed means exactly one of socket, timer, probe; closed means the queue is done |
| ClientModel.InitIsLive | cli/src/client.ts:562-606 | the state after connect satisfies the invariant |
| ClientLife.SilenceIsNoticed | cli/src/client.ts:733-750 | over every run the established current socket of an open client has its own watchdog armed, unless that found it already closing; when it fires, the socket is given up and the reconnect timer armed |
| ClientLife.LossesAreRepaired | cli/src/client.ts:705-884 | an open client arms its reconnect timer exactly at a loss, one attempt later each time; a frame other than a pong sets the count back; a socket that closes unestablished is probed |
| ClientLife.HelloAtCursor | cli/src/client.ts:757-774 | a connection that opens asks for what lies above the cursor at that time |
| ClientLife.ClosesExactly | cli/src/client.ts:780-911 | an open client closes if and only if the caller closes it, the server answers finally, a probe throws or the book overflows; readers get the fatal frame and the end, or an error |
| ClientLife.ClosedIsFinal | cli/src/client.ts:705-911 | a closed client pushes, opens and arms nothing any more |
| ClientLife.RevisionCursorIsHighest | cli/src/client.ts:796-808 | over every run the revision cursor is the highest revision told of on the current socket, a full sync's latest included |
| ClientModel.ExactlyOnceInOrder | cli/src/client.ts:780-837 | under the stated assumptions the ordinary messages pushed are exactly the log above the start cursor, each once, in order, without a gap up to the highest received on any socket, except the one message that overflows the book and closes the client |
| ClientRevisions.RevisionsInTurn | cli/src/client.ts:807-816 | over any run, of each message the revisions pushed are those that arrived, in order, with repeats in a row left out |
| ClientRevisions.OnceExactly | cli/src/client.ts:807-816 | each revision is kept once if and only if none returns after another one |
| ClientRevisions.DeliveredTwice | cli/src/client.ts:814-815 | a message revised to one state, another and back: the first is pushed twice |
| ClientConnection.Connection.OnMessage | cli/src/client.ts:780-837 | the handler takes the model's step on the real fields, and the queue's stream grows by exactly the frame the model pushes |
| ClientConnection.Connection.OnClosed | cli/src/client.ts:839-884 | the close handler takes the model's step, and the fatal frame goes to the end of the queue's stream |
| ClientConnection.Connection.OnWatchdog | cli/src/client.ts:733-750 | the watchdog retires the socket as the model says |
| ClientConnection.Connection.OnTimer | cli/src/client.ts:705-731 | the reconnect timer opens a socket or schedules again as the model says |
| ClientConnection.Connection.OnProbe | cli/src/client.ts:856-877 | each probe outcome takes the model's step, and the fatal frame goes to the end of the queue's stream |
| ClientConnection.Connection.Close | cli/src/client.ts:898-911 | close takes the model's step |
| ClientConnection.Connection.Unconfirmed | cli/src/client.ts:915-926 | exactly the unacked frames not still buffered, ascending |
| ClientConnection.Connection.ReplayUnacked | cli/src/client.ts:915-927 | these frames come next, before the buffered ones, and nothing else changes |
| ClientConnection.Run | cli/src/client.ts:562-927 | any run of the object, replays and reads in between, is the model's run |
| ClientConnection.Serve | cli/src/client.ts:562-927 | what the object's queue has handed out and holds is, replays aside, exactly the log above the start cursor, each message once and in order; only pushed frames are replayed, and only a failed queue has dropped what it held |
| TarFormat.OctalValue | scripts/desktop-ui-bundle.ts:42-46 | the octal text of a number has its value |
| TarFormat.OctalWidth | scripts/desktop-ui-bundle.ts:42-46 | k digits suffice exactly below 8 to the k |
| TarFormat.SplitJoins | scripts/desktop-ui-bundle.ts:48-60 | a split path fits its fields and rejoins to the name, except exactly one shape of absolute name |
| TarFormat.SlashLost | scripts/desktop-ui-bundle.ts:51-58 | a slash and one hundred letters split into those letters |
| TarFormat.ChecksumFits | scripts/desktop-ui-bundle.ts:74-76 | the checksum of any block fits its eight bytes |
| TarFormat.FieldReads | scripts/desktop-ui-bundle.ts:62-77 | a field written among disjoint ones reads back, with the gap behind it untouched |
| TarRoundTrip.FieldsDisjoint | scripts/desktop-ui-bundle.ts:62-77 | no later write touches name, size, kind or prefix |
| TarRoundTrip.HeaderConforms | scripts/desktop-ui-bundle.ts:62-78 | magic, version, type, mode 0755 or 0644, zero owner and time are in place, and the checksum field is the octal sum of the header with that field as spaces, as ustar requires |
| TarRoundTrip.SizeReadsBack | scripts/desktop-ui-manifest.ts:79-81 | the size field prints and parses back through the reader's text clean-up |
| TarFormat.NumbersRead | scripts/desktop-ui-manifest.ts:79-81 | signs, trailing text, missing digits and blanks in a size field are read as by parseInt |
| TarFormat.StripExactly | scripts/desktop-ui-manifest.ts:75-79 | a text ends at its first NUL that no line break follows |
| TarFormat.SpacesRead | scripts/desktop-ui-manifest.ts:79 | which bytes are trimmed and which break a line |
| TarFormat.BlocksRead | scripts/desktop-ui-manifest.ts:73-88 | seven-bit characters, the types of a file, the empty block and whole blocks of contents |
| TarRoundTrip.HeaderReads | scripts/desktop-ui-manifest.ts:74-86 | the reader sees each header's joined name, size and kind, and never takes it for the end |
| TarRoundTrip.WalkEntries | scripts/desktop-ui-manifest.ts:71-89 | the walk steps exactly from entry to entry |
| TarRoundTrip.TarRoundTrips | scripts/desktop-ui-manifest.ts:65-93 | for every accepted list of NUL-free names the reader reports the number of files and whether one is index.html |
| TarRoundTrip.AcceptedExactly | scripts/desktop-ui-bundle.ts:104-118 | the writer accepts exactly names that split and sizes below 8 to the 11 |
| TarFiles.WriteString | scripts/desktop-ui-bundle.ts:36-40 | the buffer changes in exactly the bytes of the value, or not at all when it is too long |
| TarFiles.SplitPath | scripts/desktop-ui-bundle.ts:48-60 | the loop from the right finds the specified split |
| TarFiles.TarHeader | scripts/desktop-ui-bundle.ts:62-78 | the buffer filled in place is the specified header |
| TarFiles.BuildTar | scripts/desktop-ui-bundle.ts:104-118 | the chunks concatenate to the specified tar, or an entry is refused |
| TarFiles.InspectArchive | scripts/desktop-ui-manifest.ts:71-92 | the loop over offsets computes the specified walk |
| TarFiles.BuildAndInspect | scripts/desktop-ui-bundle.ts:104-118 | writer and reader together: accepted exactly as said, and inspected to the entries' own files |
| StopWake.ComputeSince | cli/src/codex-stop-wake.ts:182-188 | the loop computes the specified query position |
| StopWake.SinceIsMax | cli/src/codex-stop-wake.ts:176-188 | which is the largest of the cursor and the live mentions |
| StopWake.AppendIs | cli/src/codex-stop-wake.ts:195-203 | recording keeps the mention last, within capacity, and adds nothing else |
| StopWake.AppendKeeps | cli/src/codex-stop-wake.ts:195-203 | every other entry is kept while there is room, and otherwise the oldest are dropped |
| StopWake.MarkAbove | cli/src/codex-stop-wake.ts:300-373 | whatever is injected is a debt or mention above the cursor and all live entries, on a Stop that continues no earlier one |
| StopWake.WakesExactly | cli/src/codex-stop-wake.ts:300-373 | when the hook wakes the session, whatever it is given |
| StopWake.DeathsTell | cli/src/commands/hook.ts:1437-1519 | a hook that dies before it records leaves no trace, and one that dies after it no prompt |
| StopWake.SeenFile.HandleStop | cli/src/commands/hook.ts:1437-1519 | the hook records before it prints and prints only what it recorded |
| StopWake.NoRepeatWithinTtl | cli/src/codex-stop-wake.ts:165-206 | from any stored list, over any run with any cursors, debts and crashes, mentions injected within one TTL strictly ascend, so none repeats, however often the list is truncated |
| StopWake.InjectsLeastExactly | cli/src/codex-stop-wake.ts:347-373 | with a mention pending, the hook injects the least one above its position, unless exactly a local debt there is another mention or too old |
| StopWake.EveryMentionReached | cli/src/codex-stop-wake.ts:182-206 | within one TTL and with a fixed cursor the injections are the pending mentions in order, one per Stop, none skipped, also while new ones arrive |
| StopWake.StaleDebtStarves | cli/src/codex-stop-wake.ts:355-362 | a stale debt above the position silences every later Stop that finds it |
| StopWake.StarvedForever | cli/src/codex-stop-wake.ts:355-362 | with mention 9 waiting and a debt of mention 5 a week old, no number of Stops wakes the session |
| Splitting.SplitMeans | scripts/cross-session-process-lifecycle.ts:136-137 | splitting inverts joining pieces without separators |
| Splitting.SplitAppend | scripts/cross-session-process-lifecycle.ts:135-137 | later text only continues the last piece |
| LinePump.EndedGrows | scripts/cross-session-process-lifecycle.ts:135-138 | a chunk ends the same lines wherever its boundaries fall, a split CR LF included |
| LinePump.LinesReadBack | scripts/cross-session-process-lifecycle.ts:135-149 | lines with either kind of line end are read back exactly, and an unfinished last line as it stands |
| LinePump.FitGrows | scripts/cross-session-process-lifecycle.ts:125-134 | the running byte count is the length of the current line |
| LinePump.CountBytes | scripts/cross-session-process-lifecycle.ts:125-134 | the byte loop fails exactly when some line is too long |
| LinePump.AcceptLines | scripts/cross-session-process-lifecycle.ts:109-116 | lines are handed over in order until the count or the callback stops them, never more than maxLines |
| LinePump.Pump | scripts/cross-session-process-lifecycle.ts:95-149 | success depends only on the whole text and means its lines are returned; on failure a first part of them, with the violated limit |
| StreamJson.FeedsLines | cli/src/claude-stream-json.ts:56-65 | for every chunking of a stream whose complete lines fit, the lines handled are the stream's lines |
| StreamChunks.EventsExactly | cli/src/claude-stream-json.ts:56-71 | for every parser of lines: the events handled depend on the stream alone if and only if no line over the limit, an unfinished last one included, has a tail past the limit that fits and is an event |
| StreamChunks.IndependentExactly | cli/src/claude-stream-json.ts:56-71 | for all parsers of lines at once: the output depends on the stream alone if and only if no line over the limit has a brace past it where the rest fits |
| StreamChunks.CutPrints | cli/src/claude-stream-json.ts:59-71 | for every parser: where such a tail is a whole message not streamed before, cutting there prints exactly its text in addition |
| StreamChunks.JunkThenMessage | cli/src/claude-stream-json.ts:56-71 | for every parser that takes a text for a whole message without an id: after too long a beginning it is printed in two chunks, and nothing is in one |
| JsonLines.TailNotEnclosed | cli/src/claude-stream-json.ts:97-105 | no proper tail of a text that opens with a brace its last character closes, strings and escapes observed, is such a text |
| JsonLines.WholeObjectsAreSame | cli/src/claude-stream-json.ts:56-105 | for every parser that reads only such texts, as JSON.parse does: a stream whose lines over the limit are whole objects is handled and printed alike in every chunking |
| JsonLines.ObjectAfterJunk | cli/src/claude-stream-json.ts:56-71 | for one such parser, a stream whose output depends on the chunks |
| StreamJson.WrapKeeps | cli/src/claude-stream-json.ts:86-94 | the soft wrap keeps the text up to white space |
| StreamJson.WrapExactly | cli/src/claude-stream-json.ts:86-94 | the soft wrap cuts at the last blank from 120 units on, and a text without one goes out whole |
| StreamJson.WhiteExactly | cli/src/claude-stream-json.ts:74-75 | trimming removes exactly the white space and line terminators of ECMA-262 |
| StreamJson.FlushKeeps | cli/src/claude-stream-json.ts:82-95 | a flush keeps the text up to white space and holds back less than 120 characters |
| StreamJson.TextKept | cli/src/claude-stream-json.ts:97-133 | over any events, printed plus held text is the text received, in order unless a whole message is printed over held text |
| StreamJson.PrintsExactly | cli/src/claude-stream-json.ts:105-131 | after any events a whole message is printed if and only if it has no id or no text of it was streamed |
| StreamJson.OutputInk | cli/src/claude-stream-json.ts:67-133 | any lines print, to the end, exactly the text their events carry, in order unless a whole message is printed over held text |
| StreamChunks.OutputOfStream | cli/src/claude-stream-json.ts:56-133 | for every parser and every stream no oversize line of which has an event for a tail, the output in any chunks is that of the lines that fit and carries exactly their text |
| StreamParser.Parser.Feed | cli/src/claude-stream-json.ts:56-65 | the object has handled exactly the lines of its chunks |
| StreamParser.Parser.FlushText | cli/src/claude-stream-json.ts:82-95 | the pieces loop and the soft-wrap loop terminate and compute the specified flush |
| StreamParser.Parser.HandleLine | cli/src/claude-stream-json.ts:97-133 | one line takes the specified step on the fields and the sink |
| StreamParser.Parser.End | cli/src/claude-stream-json.ts:67-71 | after the end the sink has had the output of the whole stream |
| StreamParser.ParseTwice | cli/src/claude-stream-json.ts:56-71 | two cuts of such a stream print the same |
| StreamEvidence.ResultBarrier.Line | scripts/claude-cross-session-stream-evidence.ts:150-192 | the closure's fields follow the specified barrier and release is called at exactly its releasing event |
| StreamEvidence.ReleasesOnce | scripts/claude-cross-session-stream-evidence.ts:150-192 | on every stream at most one release |
| StreamVerdict.BarrierExactly | scripts/claude-cross-session-stream-evidence.ts:150-192 | on every stream the barrier releases at an event if and only if there was one good init and no other so far, one send of the marker alone in its event and with an id, and this is the first success of that call |
| StreamEvidence.OfflineChain | scripts/verify-claude-cross-session.ts:433-489 | what the offline verdict establishes: one init, one matching send, and its first successful result after it |
| StreamVerdict.VerdictExactly | scripts/verify-claude-cross-session.ts:433-489 | the offline verdict reports a send and its result if and only if the stream holds one good init, one listing call and its one result, and after it one send of the marker to the listed address and its one result, alone in the whole stream and with no tool use in between |
| StreamEvidence.SessionIdsExactly | scripts/claude-cross-session-stream-evidence.ts:1 | session ids are exactly five groups of hexadecimal digits, 8-4-4-4-12, version 1 to 8, variant 8 to b |
| StreamEvidence.BarrierAgrees | scripts/claude-cross-session-stream-evidence.ts:55-107 | when the offline evidence reports the result, the barrier releases exactly at that result and after the send, if and only if no malformed init came before |
| StreamEvidence.BadInitNeverReleases | scripts/claude-cross-session-stream-evidence.ts:150-192 | a stream that the offline evidence accepts and on which the barrier never releases |
| SyncVersion.WriteTemporaries | scripts/release-version.ts:241-242 | all temporaries staged, or the write that failed is the error; no file touched |
| SyncVersion.Commit | scripts/release-version.ts:243-246 | exactly the files flagged as committed have their new content |
| SyncVersion.Rollback | scripts/release-version.ts:247-263 | every committed file is back except those whose own rollback step failed |
| SyncVersion.SyncVersion | scripts/release-version.ts:206-277 | for every fault schedule: rejected if and only if the version is invalid or a file is missing, unreadable or cannot be rewritten; returned with all new if and only if none of this and no write or rename failed; otherwise all original and the error of the first that failed, or that error in an aggregate naming exactly the files whose rollback failed; no other file changes and no temporary stays unless its unlink failed |
| SemVer.CompareVersionPrecedence | scripts/release-version.ts:44-75 | the loops compute the specified order |
| SemVer.CompareSemver | scripts/desktop-ui-prune-assets.ts:61-78 | the loops compute the specified order |
| SemVer.PruneIsTotalPreorder | scripts/desktop-ui-prune-assets.ts:53-78 | the pruner's comparator flips and is transitive on all versions |
| SemVer.PruneAgreesExactly | scripts/desktop-ui-prune-assets.ts:53-78 | for all versions the comparator decides as item 11 of Semantic Versioning does at exact values, both ways, if and only if the first difference is not two numbers equal as doubles, core numbers included, or one further to the right goes the same way |
| SemVer.RoundedIsNearest | scripts/desktop-ui-prune-assets.ts:53-59 | a number is compared as the nearest multiple of its unit in the last place, ties to even |
| SemVer.NumberAscends | scripts/desktop-ui-prune-assets.ts:53-59 | a greater number never becomes the lesser double |
| SemVer.StopsAtFirst | scripts/desktop-ui-prune-assets.ts:53-78 | the comparator's first difference is the versions' first difference if and only if that is not two numbers equal as doubles |
| SemVer.ReleaseFlipsExactly | scripts/release-version.ts:56-75 | the release comparator flips exactly when the first differing identifiers are not numbers equal as doubles |
| SemVer.ComparatorsAgree | scripts/desktop-ui-prune-assets.ts:53-78 | both comparators have the same sign on all valid versions without such a clash |
| SemVer.ReleaseIsTotalPreorder | scripts/release-version.ts:44-75 | with numeric identifiers below 2^53 it is a total preorder and the same one |
| SemVer.LargeNumbersClash | scripts/release-version.ts:70 | two versions each of which comes out above the other, equal to the pruner and in order by item 11 |
| SemVer.LargeCoreTurnsRound | scripts/desktop-ui-prune-assets.ts:72-80 | two versions that the pruner puts in the opposite order of item 11 |
| SemVer.LargeCoreRecovers | scripts/desktop-ui-prune-assets.ts:72-80 | two versions whose first difference is such numbers and that still come out in order |
| PrunePlan.PlanPrune | scripts/desktop-ui-prune-assets.ts:89-125 | the plan partitions the assets, keeps min(keep, n) versions, newest first, and prunes no version above a kept one; refused exactly for keep below 1 |
| PrunePlan.DeletionsCount | scripts/desktop-ui-prune-assets.ts:117-123 | deleted are exactly the assets of pruned versions, as often as listed |
| Calendar.DateRoundTrip | scripts/desktop-update-manifest.ts:51-57 | a valid date set on a Date reads back |
| Calendar.DaysSucceed | scripts/desktop-update-manifest.ts:51-53 | the day arithmetic is the calendar's succession of days, counted from 1 January 1970 |
| Calendar.YearCarries | scripts/desktop-update-manifest.ts:51-53 | months beyond the year carry over |
| Calendar.DayCarries | scripts/desktop-update-manifest.ts:51-53 | the day after the last of a month is the first of the next |
| Calendar.NormalisesExactly | scripts/desktop-update-manifest.ts:54-57 | setting and reading back gives the same fields exactly for months 1 to 12 and days up to the month's length |
| Calendar.LeapMinute | scripts/desktop-update-manifest.ts:65-75 | the shifted time falls on the right UTC date and minute across day, month and year ends |
| Calendar.SameInstant | scripts/desktop-update-manifest.ts:64-75 | a stamp with an offset and the stamp of the same instant in UTC are both allowed or both refused: a time east of Greenwich is ahead of UTC, one west of it behind |
| Calendar.Examples | scripts/desktop-update-manifest.ts:37-79 | the examples of section 5.8 of RFC 3339, the leap second in both zones included, and two that are refused |
| Calendar.Bounds | scripts/desktop-update-manifest.ts:46-75 | the ends of every range and what lies just beyond them |
| Calendar.ValidateRfc3339Date | scripts/desktop-update-manifest.ts:37-79 | the mutated Date and flags accept exactly the dates of the calendar, times of the day, and second 60 only at 23:59 UTC of 30 June or 31 December |

## Left out

Inputs taken as given, in the form the modelled code uses them:

- JSON parsing, regular expressions for addresses, versions, asset names and dates, and the text extraction of tool results: parsed values, or parameters.
- UTF-8 decoding in the stream processors: the line pump works on ASCII bytes, the event parser on UTF-16 code units.
- Random names and clocks: parameters; random names are taken to be new and distinct.
- The server: `next-mention` answers the least unhandled mention above its argument, and the message log is ascending; both are stated where they are used.

What a model does not capture:

- GateRun.AllowedSendsAreJustified: takes consume.lock as a mutex that a crash releases; GateSystem.LockFilesRefineMutex says when the lock files are one. Sub-agent sends are denied before the lock and are in the log, but the barrier theorem is about main-session tools.
- GateBarrier.BarrierHolds: is about hooks that read within 5 s of their start, find the armed file and can read the state; GateWitness.BarrierExactly shows that at every other pace the claim is false.
- ConsumeLock.ExclusionExactly: file times are exact milliseconds; coarser file-system times are not modelled.
- The 250 ms deadline of `waitForConsumeLock`, file modes, owner and size checks: a process may give up or find a file unreadable at any read.
- NativeSession.AtMostOncePerRefusal: connecting, following and authorising are single events that may fail; the follower's own reconnects change neither set and are left out.
- ClientModel.ExactlyOnceInOrder: the assumptions on server and consumer are the predicate Fair: no sent frames, a connection brings every log entry above its hello.since in order, acks name pushed messages.
- ClientModel.NeverLiveButDeaf: callbacks given by the caller do not throw and do not call back into the client.
- ClientLife.LossesAreRepaired: counts the attempts; the delay computed from the count is not modelled.
- ClientRevisions.RevisionsInTurn: a mark is what the fingerprint gives for a frame; how it is made of the frame's fields is not modelled.
- Replica.ReplicaClient.HandleChange: the state is a value and a patch a function on it, so readers that keep a reference to the old state while it is patched are not seen.
- Replica.GapsAreNoticed: the owner's revisions are taken to differ; a revision number used twice would hide a gap.
- JsonPatch.AppliesExactly: trees are values, not objects patched in place; array indices of 2^32 - 1 and more, which JavaScript treats as properties, are not.
- The polling and reading half of WindowsPipeStream, pipe verification and SIDs.
- TarRoundTrip.TarRoundTrips: names are bytes, NUL-free; the reader's regular expression also stops at U+2028 and U+2029, which the model's line breaks leave out. Gzip, checksums of the archive and directory scanning are not part of this model.
- StopWake.NoRepeatWithinTtl: one hook process at a time per identity and channel; two at once may read the same list.
- The prompt text of the wake hook and its 512-byte limit: a flag saying whether a prompt could be made.
- JsonLines.WholeObjectsAreSame: of JSON.parse it is assumed that a text opening with a brace is read only if its braces outside strings nest and close with the text and its backslashes are in strings (sections 2, 4 and 7 of RFC 8259); and each such line has ink within the limit.
- StreamParser.Parser.Emit: a sink that throws is a sink that was called.
- StreamEvidence.BarrierAgrees: a listing's address in a tool result is given; the receiver's half of the evidence is not modelled.
- SyncVersion.SyncVersion: two paths of one update are distinct files, and rename is atomic; the rewriting of each file's text is a parameter.
- SemVer.PruneAgreesExactly: rounding to doubles is modelled, overflow to Infinity from 2^1024 on, in either comparator, is not.
- Spawning processes, sockets, hashing, signatures, `gh` calls and command-line parsing.
- Field-by-field validators of server frames, message texts and reports: one-branch facts.
