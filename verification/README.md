# terminal-cell: a verified model of the terminal daemon's core

terminal-cell owns one pseudo-terminal (PTY). Around it sit several small state machines: a
fanout that serves one viewer, a bounded notice queue, a scriber, an actor with a bounded
transcript, an input gate, a control plane with leases, and a wire codec. This project models
those machines and proves what holds over every run of them, alone and composed.

How the model is laid out, file by file:

| file | models |
|---|---|
| `Bytes.dfy` | bytes, saturating u64 counters, concatenation facts |
| `Transcript.dfy` | the byte-bounded transcript as an index over an unbounded log, and the screen cache |
| `Subscription.dfy` | replay followed by a lossy broadcast channel of 1024 events |
| `Cell.dfy`, `Waiters.dfy` | the actor's message handlers, and what they promise to those who wait |
| `Flush.dfy` | flushing buffered chunks to a writer that may fail, shared by the fanout and the gate |
| `NoticeQueue.dfy`, `Fanout.dfy`, `ViewerSlot.dfy` | the drop-oldest queue and the owner of the viewer slot, and what ends the holding of it |
| `Pipeline.dfy`, `AttachProtocol.dfy`, `ViewerStreams.dfy`, `SnapshotAnswers.dfy`, `MissedOutput.dfy`, `Progress.dfy` | PTY reader, fanout, queue, scriber, actor and any number of attach connections as one concurrent system: what is kept, what a viewer gets and misses, and what gets done |
| `InputGate.dfy`, `InputTraces.dfy`, `InputReorder.dfy` | the input gate and its writer, and what they do to whole command traces |
| `InputPort.dfy` | the channel of input commands between their senders and the one worker |
| `Prompt.dfy`, `SignalControl.dfy`, `SignalAnswers.dfy` | prompt checks, the Signal lease registry on top of the port, and what its requests are answered |
| `SignalRaces.dfy` | the registry again, with request handlers that interleave |
| `Wire.dfy`, `Requests.dfy`, `Replies.dfy` | framing, requests and replies on the sockets |

Each object the source updates in place is a class whose methods are proved to move its
abstract value exactly as a pure step function says (`View() == Handle(old(View()), ...)`). The
theorems are about that step function, over every sequence of commands. Things outside the
program are parameters: a writer that may fail is a function from the number of writes made to
an outcome (all bytes, or a prefix and an error); the scriber's `try_send` is a nondeterministic
accept or refuse; the vt100, regex and Signal archive libraries are parameters or free values.

Every actor handler, fanout command and input-writer command is one atomic step, as the
single-threaded loops that run them make it. In the composed pipeline a step is one step of one
process, in any interleaving. Control requests are different: each connection is served on a
thread of its own (`src/daemon.rs:234-248`), so that `SignalControl` takes a whole request as one
step, beside the worker's steps, is an assumption; `SignalRaces` drops it for the registry. Ghost history (`log`, `handled`, `pushed`, `emitted`)
records what the program itself forgets.

## Results worth knowing

- Whatever the interleaving, a viewer's stream is in PTY order and repeats no output position,
  and what it misses from before its reservation is exactly of three kinds: trimmed, lost, or
  not yet in the transcript when the actor got to its snapshot request.
- Output is lost where the mailbox refuses it or the queue overflows, and nowhere else; everything
  else arrives in the transcript, in order.
- A viewer holds the slot, and is handed every chunk, until it is detached or a write to it fails;
  every attach whose reservation was granted gets through, or frees the slot.
- A subscription ends exactly when it lags by more than 1024 events or its client takes no more.
- Transcript waiters never miss a needle of length `n` if and only if `n - 1 + 8192` is at most
  the transcript's capacity, that is, `n <= 1040385`; beyond it there is a run of the reader's own
  small chunks that misses one.
- With a PTY that does not fail, the bytes written are the command trace in which each viewer
  chunk that met a closed gate moves to the release, and nothing else moves.
- With requests handled one at a time, the Signal registry is empty or holds exactly the lease the
  gate is closed under, in every run of requests and worker steps,
  even with failing flushes, raw requests mixed in, and saturated counters. With interleaving
  handlers an entry disagrees exactly while an answered release has yet to remove it, or if it was
  recorded late.
- An acknowledged injection reaches the PTY under its own lease exactly if no write queued before
  it fails.
- From an acquire until its lease is given back no other harness or raw client gets the gate, and a
  release either writes out exactly the held human input or, when a write fails, leaves gate and
  lease in place.
- A request or reply survives the wire if and only if its payload is at most 16 MiB.

Where the code is not what one would expect, the model follows the code:

- `ARCHITECTURE.md:19` and `ARCHITECTURE.md:228` call the transcript append-only; the code keeps
  the last 1 MiB only, and the model proves exactly that.
- A literal prompt suffix counts as clean on an empty transcript (`Prompt.NoGapExactly`).
- A wait for the empty text makes `windows(0)` panic inside the actor, which stops it
  (`Waiters.PanicsExactly`).
- A viewer that attaches while output waits in the notice queue or the mailbox never receives that
  output, although nothing was dropped, trimmed or refused (`MissedOutput.ViewerCanMissOutput`).
- A failed release keeps the gate closed and the lease registered, but has forgotten the unwritten
  rest of the chunk it was writing, so that a repeated release can succeed without it
  (`InputTraces.BytesReachedExactly`, `InputTraces.FailedReleaseLosesBytes`,
  `SignalControl.ReleaseFreesOrKeeps`).
- An acknowledged injection was only queued: if a write queued before it fails, it is never
  attempted (`SignalControl.AcknowledgedInjectionCanBeLost`). Conversely, an injection that is
  answered with an error may have been queued (`SignalControl.InjectionQueuedExactly`).
- When handlers interleave, a lease that has been given back can still inject while the gate is
  closed under another one (`SignalRaces.StaleLeaseInjects`), and a lease opened by a raw client
  before it is recorded stays on record (`SignalRaces.LateRecordStays`).
- A detach left over from an earlier grant is harmless only until the lease counter saturates
  (`Fanout.LateDetachIsHarmlessExactly`, `Fanout.LateDetachCanEvict`).
- A Signal query with an oversize archive is handled as another request when the top byte of its
  32-bit length is a tag, since the writer does not check the bound
  (`Requests.OversizeSignalExactly`).

## Model

| member | source | states |
|---|---|---|
| Transcript.TerminalTranscript.Append | src/session.rs:362-370 | the log grows by the chunk, the delta carries the next (saturating) sequence number, and the deque is again a window of the log holding exactly its last `byteCapacity` bytes |
| Transcript.TerminalTranscript.ReclaimScrollback | src/session.rs:372-386 | from any window with too many bytes, ends with exactly the last `byteCapacity` bytes, trimming the front delta at its front only and never to nothing; the deque shrinks every turn, so the loop ends and never finds it empty |
| Transcript.TerminalTranscript.Resize | src/session.rs:388-393 | the cached parser is told the size; the history records it; no output changes |
| Transcript.TerminalTranscript.Snapshot | src/session.rs:395-402 | the bytes are the last min(capacity, total) bytes of everything ever appended, with the number of the newest append |
| Transcript.TerminalTranscript.ReplayAfter | src/session.rs:404-410 | exactly the retained deltas above a sequence number, in order |
| Transcript.TerminalTranscript.Contains | src/session.rs:200-204 | true iff the needle occurs contiguously in the last `byteCapacity` bytes of everything appended, for every non-empty needle |
| Transcript.TerminalTranscript.ProjectedParser | src/session.rs:412-418 | at the current size the shown parser has processed the full output with resizes interleaved, whatever was reclaimed; at another size it has processed the snapshot |
| Transcript.PushedWindow | src/session.rs:362-370 | pushing the next delta onto a window of the log gives a window of the longer log |
| Transcript.PoppedWindow | src/session.rs:372-386 | popping the front delta leaves a window whose bytes are still a tail of the output |
| Transcript.TrimmedWindow | src/session.rs:376-383 | cutting the excess off the front delta leaves a window with exactly that many bytes fewer, still a tail of the output |
| Transcript.ReplayIsConsecutive | src/session.rs:404-410 | a replay after any sequence number is the run of the retained deltas above it up to the newest, with consecutive numbers: nothing is skipped unless it asks to go on after the last u64 when the numbers have saturated |
| Transcript.ReplayMissesPastSaturation | src/session.rs:404-410 | in that one case the replay is empty although later deltas are retained |
| Transcript.CacheAgreesWithReplay | src/session.rs:412-418 | whatever vt100 makes of its inputs, re-parsing the snapshot shows the cached screen when nothing was resized and the whole history fits the capacity |
| Transcript.CacheDiffersOtherwise | src/session.rs:412-418 | otherwise the cached parser was given other inputs than the re-parsed one, so neither condition can be dropped for every library |
| Transcript.OtherSizeIsFreshTerminal | src/session.rs:412-418 | at another size the projection is what a terminal of that size shows that was only ever given the retained bytes |
| Subscription.SendCarries | src/session.rs:1544-1545 | after a send the channel still holds the newest 1024 events of the history |
| Subscription.ReceiveIsNext | src/session.rs:1180-1186 | a receiver lags iff more than 1024 events were sent past it, waits iff it took everything, and otherwise gets the very next event |
| Subscription.Subscriber.WriteReplay | src/daemon.rs:428-430 | if the replay cannot be written there is no loop |
| Subscription.Subscriber.Turn | src/daemon.rs:431-440 | one turn of the subscriber loop: forward the next live event, or end at the first lag or write error |
| Subscription.LiveContinuesReplay | src/session.rs:1180-1186 | in every interleaving of publishers and the subscriber, the live part is the history from the moment of subscription on, without gap or repeat; a failed replay is followed by nothing; also for worker lifecycle events |
| Subscription.TurnSendsNext | src/daemon.rs:431-440 | a turn of a loop that has not ended sends exactly the next published event, if there is one; it ends exactly if it has one and cannot send it, because more than 1024 newer ones were published or the client does not take it |
| Subscription.EndedExactly | src/daemon.rs:427-440 | in every run, a subscription has ended iff its replay could not be written or one of its turns could not send the event it had to send |
| Subscription.CatchesUp | src/daemon.rs:431-440 | one that has not ended and is at most 1024 events behind is sent everything published since it joined by polling often enough, and goes on |
| Subscription.SubscriberSeesOneRun | src/daemon.rs:427-440 | the deltas sent to a subscriber after any number (replay, then live) carry consecutive numbers, and their bytes are one contiguous run of the output up to where the stream stands; from the beginning it starts with the whole retained tail, and after a delta still retained it is exactly everything since; if the replay is cut short, the client gets the front of it and nothing more |
| Cell.TerminalCell.Handle | src/session.rs:1702-1758 | each wait message is answered at once if what it waits for is retained or recorded, registered otherwise, and dropped if nobody asks; output, exit and worker messages go to the members below; nothing else changes |
| Cell.TerminalCell.HandleOutput | src/session.rs:1573-1577 | append, broadcast to subscribers, then wake exactly the transcript waiters whose needle is now retained |
| Cell.TerminalCell.NotifyWaiters | src/session.rs:1375-1386 | splits the waiters, in order, into those answered `true` and those that still wait |
| Cell.TerminalCell.NotifyExitWaiters | src/session.rs:1388-1396 | with an exit recorded, every exit waiter is answered with it and none remains; otherwise nothing changes |
| Cell.TerminalCell.NotifyWorkerWaiters | src/session.rs:1398-1408 | exactly the waiters of the stopped worker are answered, with its reason; the others stay in order |
| Cell.TerminalCell.HandleWorker | src/session.rs:1592-1602 | a stop wakes its waiters; every lifecycle event is recorded and broadcast |
| Cell.TerminalCell.HandleWaitText | src/session.rs:1702-1717 | answered at once if the needle is retained, registered otherwise; an empty needle panics the handler; a told message does nothing |
| Cell.TerminalCell.StoppedReason | src/session.rs:275-287 | the newest recorded stop of that worker, if any |
| Cell.TerminalCell.SubscribeTranscript | src/session.rs:1675-1684 | the replay and a receiver that starts exactly at the end of the log are taken in the same step |
| Cell.TerminalCell.SubscribeWorkerLifecycle | src/session.rs:1660-1669 | the same for worker lifecycle events, whose history is never trimmed |
| Waiters.RecordsExactly | src/session.rs:1573-1602 | what a living actor has on record is what its messages say: every output in order, the newest exit, every lifecycle event in order, and so the newest stop of each worker |
| Waiters.NoLostWakeups | src/session.rs:1375-1408 | in every run of a living actor, told from its messages: no exit waiter once an exit was told, no worker waiter whose worker was told to have stopped, no transcript waiter whose needle is in the last bytes output |
| Waiters.PanicsExactly | src/session.rs:200-204 | the actor dies of a wait for the empty text, and of nothing else it handles |
| Waiters.ExitWaiterAnswered | src/session.rs:1723-1737 | an exit waiter gets exactly one answer: the newest exit among the messages before it asked, else the first one after |
| Waiters.WorkerWaiterAnswered | src/session.rs:1743-1758 | a worker-stop waiter gets exactly one answer: the newest stop of its worker among the messages before it asked, else the first one after |
| Waiters.WindowCatchesNeedle | src/session.rs:200-204 | a chunk of at most `bound` bytes that completes a first occurrence leaves it in the retained window, for needles up to capacity + 1 - `bound` |
| Waiters.TextWaiterAnswered | src/session.rs:1702-1717 | after every continuation, the waiter has been answered `true` exactly once iff its needle has occurred in (the last bytes output before it asked, then everything output since), and else still waits |
| Waiters.WaitersCompleteExactly | src/session.rs:1375-1386 | no run whose chunks all respect the bound misses a needle of length n iff n - 1 + chunk bound <= capacity; otherwise such a run that misses one is constructed |
| Waiters.TerminalWaitersComplete | src/session.rs:1487-1505 | with the 8192-byte read buffer and 1 MiB of scrollback: iff the needle has at most 1040385 bytes |
| NoticeQueue.TranscriptNoticeQueue.PushDropOldest | src/session.rs:877-892 | drops the oldest pending notice exactly when full, counts it, and appends the new one |
| NoticeQueue.TranscriptNoticeQueue.PopOnce | src/session.rs:896-915 | hands out the oldest pending notice; `None` only when closed and empty |
| NoticeQueue.TranscriptNoticeQueue.Close | src/session.rs:917-925 | closes without discarding anything |
| NoticeQueue.QueueAccounts | src/session.rs:848-926 | in every run: removed ++ pending = pushed, in order; length within capacity; the drop counter equals the number of drops until it saturates |
| NoticeQueue.PushesKeepNewest | src/session.rs:877-892 | after any number of pushes in a row the queue holds the newest `capacity` of what it held and what was pushed, and dropped exactly the others, oldest first: a push drops only when the queue is full |
| NoticeQueue.NoneMeansDrained | src/session.rs:896-915 | `None` means closed with every push popped or counted as dropped |
| NoticeQueue.ClosedQueueDrains | src/session.rs:896-925 | a closed queue hands out exactly what it holds, in push order, and then ends |
| Fanout.ViewerFanout.Reserve | src/session.rs:961-971 | grants the next lease iff the slot is vacant |
| Fanout.ViewerFanout.Activate | src/session.rs:973-1004 | only the lease that reserved the slot becomes active, after its whole backlog was written; a failed write vacates the slot; any other lease changes nothing |
| Fanout.ViewerFanout.ActivateReservedViewer | src/session.rs:1006-1021 | writes the backlog up to the first failure and notifies the transcript of all of it, in order, either way |
| Fanout.ViewerFanout.DetachViewer | src/session.rs:1023-1034 | frees the slot of its holder and hands a reserved backlog to the transcript; a stale lease changes nothing |
| Fanout.ViewerFanout.WriteBytes | src/session.rs:1036-1054 | buffers for a reserved viewer, otherwise writes to an active one (vacating the slot on error) and notifies the transcript |
| Fanout.ViewerFanout.NotifyReservedTranscript | src/session.rs:1056-1060 | the whole backlog reaches the queue in order |
| Fanout.ConservedAlways | src/session.rs:932-1065 | in every run, saturated or not: chunks notified to the transcript ++ backlog = chunks handled, in order |
| Fanout.FanoutKeepsInv | src/session.rs:932-1065 | until the lease counter saturates, every grant is served exactly the chunks handled since it was reserved, all of them while it is active, a prefix once it lost the slot |
| Fanout.StrangersChangeNothing | src/session.rs:973-1034 | a detach or activate with any lease but the holder's changes nothing and is refused |
| Fanout.GrantedLease | src/session.rs:961-971 | grant number n carries lease min(n, 2^64-1), and is given iff the slot is vacant; so leases are distinct below saturation |
| Fanout.LostForGood | src/session.rs:961-1034 | a lease that lost the slot never holds it again: holding intervals are disjoint |
| Fanout.LateDetachIsHarmlessExactly | src/daemon.rs:1101-1141 | the second detach of a failed attach leaves a later viewer in place iff its grant came before saturation |
| Fanout.LateDetachCanEvict | src/daemon.rs:1101-1141 | after 2^64 - 1 viewers came and went, the second detach of the last one throws out the next |
| Fanout.OnlyTheHolderIsServed | src/session.rs:973-1054 | a command writes to nobody but the holder or the viewer it activates |
| ViewerSlot.RunRecords | src/session.rs:932-1065 | every chunk sent to the fanout is handled, in order, and every write fares as the streams say |
| ViewerSlot.HoldsExactly | src/session.rs:961-1054 | in every run, from the reservation of a grant on: it holds the slot iff no detach of it was handled and no write to it failed; it is active iff it holds the slot and was activated; while active it was handed every chunk since its reservation, while reserved none |
| ViewerSlot.ActivatedExactly | src/session.rs:973-1021 | whatever its backlog, an activated viewer becomes active iff every write of the backlog succeeds, and is answered so; otherwise the slot is free |
| ViewerSlot.ActivationSucceedsExactly | src/session.rs:973-1021 | so in every run an activation succeeds iff the streams take every chunk handled since the reservation |
| Flush.TriesAre | src/session.rs:593-598 | a flush stops at its first failing write or at the end: those facts determine how many writes it makes |
| Flush.FlushedShape | src/session.rs:1006-1021 | a flush attempts a prefix of the chunks, in order, and only its last write may have failed |
| Pipeline.NextKeepsFlow | src/session.rs:877-1090 | every step of every process keeps all chunks accounted for, with the channel and the fanout holding the newest ones complete and in order |
| Pipeline.FlowAlways | src/session.rs:877-1090 | so it holds in every reachable state, however many leases were granted |
| AttachProtocol.SnapshotShowsThePast | src/daemon.rs:1119-1128 | when the actor gets to the snapshot request of an attach, its transcript holds only chunks from before the reservation, in order, and each of the others is accounted for as under way or lost |
| AttachProtocol.ConnectionKeepsInv | src/daemon.rs:1101-1141 | the steps of the attach handshake, its failures and its double detach keep the protocol invariant |
| AttachProtocol.FanoutKeepsAttaches | src/session.rs:973-1034 | whatever command the fanout takes next, every connection stands where the protocol says |
| AttachProtocol.PipelineKeepsInv | src/daemon.rs:1101-1158 | the invariant of the handshake holds in every reachable state of the composed system, as long as fewer than 2^64 leases were granted |
| ViewerStreams.PipelineAccounting | src/session.rs:1036-1090 | every chunk emitted is in exactly one place: transcript, mailbox, scriber's hand, queue, backlog, channel, refused, or dropped; the survivors stand in PTY order and the drop counter is right |
| ViewerStreams.PositionsShowContents | src/session.rs:395-402 | output positions stand for bytes: reading the output at the positions of some chunks gives the contents of those chunks |
| ViewerStreams.SnapshotIsRetained | src/session.rs:395-402 | the positions replayed to a viewer are those of the bytes a snapshot of that transcript returns |
| ViewerStreams.SentIsContiguous | src/session.rs:1006-1054 | what the fanout writes to one viewer is one contiguous run of the output that starts at its reservation |
| ViewerStreams.StreamInOrder | src/daemon.rs:1119-1141 | in every interleaving a viewer's stream (snapshot, backlog, live) is in PTY order and never repeats an output position |
| SnapshotAnswers.SnapshotWasTaken | src/session.rs:1622-1631 | whenever a connection has a snapshot, the actor took its request at some step of the run, and the snapshot is the transcript of the state before that step |
| SnapshotAnswers.AnsweredState | src/daemon.rs:1119-1128 | and each chunk from before the reservation was then in the transcript iff it was in none of: the mailbox, the scriber's hand, the queue, refused, dropped |
| MissedOutput.ShownExactly | src/session.rs:395-402 | a snapshot answered in some state shows, of the output from before the reservation, exactly what had arrived in the transcript by then and was not trimmed |
| MissedOutput.MissedExactly | src/daemon.rs:1119-1141 | in every reachable state, what a replayed viewer misses from before its reservation is exactly what was trimmed, lost, or still on its way to the transcript in the state in which the actor took its snapshot request |
| MissedOutput.MissedForGood | src/daemon.rs:1119-1141 | what it has missed then, it misses in every continuation |
| MissedOutput.ViewerCanMissOutput | src/daemon.rs:1119-1141 | it happens with nothing dropped, trimmed, refused or failing: a run in which the only output waits in the queue during the handshake, and is never sent |
| MissedOutput.SeesEverythingExactly | src/daemon.rs:1119-1141 | in every reachable state, an active viewer has received the whole output the fanout handled iff, in the state in which the actor took its snapshot request, nothing had been trimmed and no byte was lost or under way |
| MissedOutput.UninterruptedViewerSeesEverything | src/daemon.rs:1119-1141 | with no chunk under way or lost in that state and history within capacity, an active viewer has received exactly the whole output the fanout handled |
| Progress.LostExactly | src/session.rs:877-1090 | in every run, a chunk is lost when the mailbox refuses it out of the scriber's hand, or when it is among the oldest of more than 1024 in the queue, and at no other step |
| Progress.TranscriptCatchesUp | src/session.rs:1067-1090 | from every reachable state, when scriber and actor work off what there is, the transcript holds everything that was under way to it, in order, and nothing is lost |
| Progress.OutputArrives | src/session.rs:1036-1090 | so once the fanout has worked off its channel too, and no viewer has the slot reserved, the transcript holds every chunk the PTY produced, in order, but for those lost |
| Progress.ReserveIsAnswered | src/session.rs:961-971 | a reservation is granted iff the slot is free when the fanout gets to it, and its connection then holds the slot |
| Progress.AttachGetsThrough | src/daemon.rs:1119-1141 | from every reachable state with a granted reservation: the connection still has the slot when the fanout gets to its activation, and becomes the active viewer iff its stream takes every chunk of its backlog; if not, it is told so and the slot is free |
| Progress.GivingUpFreesSlot | src/daemon.rs:1101-1158 | a connection that fails or ends, wherever it stands, does not hold the slot once the fanout has worked off its channel |
| Progress.EmittedExactly | src/session.rs:1487-1505 | the output is what the PTY reader sent, chunk by chunk |
| Progress.ReplayedExactly | src/daemon.rs:1122-1126 | how much of its snapshot a viewer got is what the one write of it did, and nothing later changes it |
| InputGate.TerminalInputGate.CloseHuman | src/session.rs:543-555 | closes under a fresh lease, or names the lease that already holds the gate |
| InputGate.TerminalInputGate.OpenHuman | src/session.rs:557-573 | only the holding lease flushes and opens; a failing flush leaves the gate closed with the rest still held |
| InputGate.TerminalInputGate.HeldByteCount | src/session.rs:589-591 | the total length of the held chunks |
| InputGate.TerminalInputGate.FlushHeldHumanInput | src/session.rs:593-598 | writes the held chunks in order up to the first failure, whose chunk is gone, and keeps the rest |
| InputGate.TerminalInputGate.WriteInput | src/session.rs:575-587 | viewer chunks wait behind a closed gate; everything else is written at once |
| InputGate.TerminalInputWriter.HandleCommand | src/session.rs:628-646 | one command of the worker, with its reply; only a failing write stops it |
| InputGate.TerminalInputWriter.RunAll | src/session.rs:619-626 | the worker loop computes the run of its commands, in order, up to a failing write |
| InputTraces.GateConserves | src/session.rs:543-603 | in every run with a failing writer, chunk by chunk: viewer chunks attempted ++ held = viewer chunks received, in order; programmatic chunks all attempted; an open gate holds nothing; each failed write was reported once |
| InputTraces.BytesReachedExactly | src/session.rs:557-603 | and byte by byte: viewer bytes that reached the PTY ++ held = viewer bytes received iff no viewer write was cut short; in any case the counts differ by exactly what failing writes left out; the same for programmatic bytes |
| InputTraces.FailedReleaseLosesBytes | src/session.rs:557-573 | a release that fails one byte into a held chunk loses the rest: the repeated release succeeds with nothing held |
| InputTraces.ReleaseCountsItsFlush | src/session.rs:557-573 | a successful release wrote exactly the held chunks, reports exactly the bytes that flush wrote, and leaves the gate open and empty |
| InputTraces.InjectionIsContiguous | src/session.rs:575-587 | between a close and its release the PTY gets the programmatic chunks alone, contiguous and in order |
| InputReorder.ReachesOnce | src/session.rs:543-603 | a chunk reaches the PTY at no more than one moment of the trace |
| InputReorder.ReorderedIsExact | src/session.rs:543-603 | the reordered trace holds exactly the chunks that were direct or whose release has come |
| InputReorder.ReorderedNeverRepeats | src/session.rs:543-603 | and none of them twice |
| InputReorder.MachineLock | src/session.rs:543-573 | gate state and lease counter follow the closes and matching opens alone |
| InputReorder.GateOnlyReorders | src/session.rs:543-646 | with a PTY that does not fail, the writes are the trace with every waiting viewer chunk moved to its release, and nothing else moved |
| Prompt.GapIsLeast | src/daemon.rs:888-899 | for a non-empty suffix the gap is the least number of trailing bytes whose removal leaves a transcript ending with it, and the whole length iff it does not occur |
| Prompt.NoGapExactly | src/daemon.rs:888-899 | the gap is 0 iff the transcript is empty or ends with the suffix |
| Prompt.EmptyTranscriptLooksClean | src/daemon.rs:854-886 | so an empty transcript passes for a clean prompt that it does not show |
| InputPort.TerminalInputPort.AcceptInput | src/session.rs:659-665 | a write is queued, and that is all, unless the worker is gone |
| InputPort.TerminalInputPort.AskWorker | src/session.rs:667-691 | a close or open is handled after everything queued before it; no answer if the worker is gone, or stops before it gets there |
| InputPort.TerminalInputPort.Turn | src/session.rs:619-626 | the worker takes the next command; when a write fails it stops and the rest of the channel is lost |
| InputPort.DrainedIsRun | src/session.rs:619-691 | wherever the worker has got to, once its channel is empty it is where handling all commands in the order of their sending brings it |
| InputPort.WritesStopExactly | src/session.rs:619-646 | queued writes leave the gate as it is, and stop the worker iff one of them fails |
| InputPort.WriteMeetsItsFate | src/session.rs:619-646 | a direct write is handed to the PTY, right after what came of the commands sent before it, iff the worker has got to it and none of those stopped the worker |
| SignalControl.LeaseSurvivesCasts | src/daemon.rs:901-911 | u64 to i64 and back is the identity on every lease number |
| SignalControl.TerminalControl.AcquireSignalInputGate | src/daemon.rs:674-701 | checks the prompt, closes the gate and registers the lease with that prompt state; busy and failing cases register nothing |
| SignalControl.TerminalControl.ReleaseSignalInputGate | src/daemon.rs:703-745 | an unregistered lease is unknown; a released or stale one is forgotten; a failing flush keeps it registered |
| SignalControl.TerminalControl.WriteSignalInjection | src/daemon.rs:747-789 | refuses unknown leases and dirty prompts, otherwise queues a programmatic write, and acknowledges with the transcript's newest number if the actor answers |
| SignalControl.TerminalControl.CloseHuman | src/daemon.rs:451-457 | a raw close registers nothing |
| SignalControl.TerminalControl.OpenHuman | src/daemon.rs:459-467 | a raw release also forgets the Signal lease of that number |
| SignalControl.TerminalControl.RegisterPromptPattern | src/daemon.rs:306-315 | stores the pattern under the next number |
| SignalControl.TerminalControl.UnregisterPromptPattern | src/daemon.rs:317-319 | forgets the pattern and nothing else |
| SignalControl.RegistryAgrees | src/daemon.rs:340-366 | in every run of raw and Signal requests, each handled at once, and of worker steps, the registry is empty or holds exactly the lease the gate is closed under |
| SignalControl.InjectionQueuedExactly | src/daemon.rs:747-789 | an injection is queued iff its lease is registered, its prompt not dirty and the worker alive; acknowledged iff the actor answers too; refused ones change nothing |
| SignalControl.AcknowledgedInjectionFate | src/daemon.rs:747-789 | in every run and continuation, an acknowledged injection is handed to the PTY, under its own, sole lease with a prompt not found dirty and right after what was queued before it, once the worker gets there, iff no write queued before it fails; otherwise never |
| SignalControl.AcknowledgedInjectionCanBeLost | src/daemon.rs:772-789 | a run in which an acknowledged injection behind a failing write is never attempted |
| SignalControl.RegisteredLeaseIsNeverStale | src/daemon.rs:703-745 | a release answers "unknown lease" iff the lease is not registered: the gate never finds a registered lease stale |
| SignalControl.ReleaseFreesOrKeeps | src/daemon.rs:703-745 | releasing a registered lease either writes out exactly the held human input, reports exactly those bytes, opens the gate and empties the registry, or reports the failed write and leaves gate and lease as they were, with exactly the chunks behind the failed one still held; if the worker had stopped or stops before, the lease stays on record |
| SignalControl.AcquiredExcludesOthers | src/daemon.rs:674-701 | from an acquire until its lease is given back, in every run, the gate stays closed under it, its prompt state stays on record, and no other acquire or raw close is granted |
| SignalAnswers.AcquireAnsweredExactly | src/daemon.rs:674-701 | in every run: an acquire fails iff the prompt cannot be checked or the worker is gone by then, is busy iff the gate is closed, and else gets a new lease under which the gate is closed and which is on record with the prompt as found: not checked iff no pattern was selected, the whole transcript dirty for an unknown pattern, clean if no byte follows the last prompt and dirty with their number if some do |
| SignalAnswers.AcquiredCleanExactly | src/daemon.rs:832-852 | under a literal pattern the prompt is found clean iff the transcript is empty or ends with it |
| SignalAnswers.PromptDecidesInjections | src/daemon.rs:747-789 | in every run, until the lease is given back: every injection under a lease acquired with a dirty prompt is refused as such and changes nothing, every other one is queued while the worker lives |
| SignalAnswers.PatternsExactly | src/daemon.rs:306-338 | the pattern found under a number is the one last registered under it, unless unregistered since |
| SignalAnswers.RegisteredUntilUnregistered | src/daemon.rs:306-338 | the number that a registration is answered finds its pattern until it is unregistered, below 2^64 - 1 registrations |
| SignalAnswers.RawCloseAnswered | src/daemon.rs:451-457 | a raw close is answered the lease the gate is then closed under, iff the gate was open and the worker lives; the registry stays |
| SignalAnswers.RawOpenFreesOrKeeps | src/daemon.rs:459-467 | a raw open of the holding lease flushes and frees gate and registry, or keeps both when a write fails; of another lease it changes nothing |
| SignalAnswers.RequestSends | src/session.rs:659-691 | a request sends the worker the one command it has for it, while the worker lives, and nothing else |
| SignalRaces.RegistryDisagreesExactly | src/daemon.rs:674-745 | in every interleaving of handlers, the gate is not closed under a registered lease iff an answered release of it has yet to remove it, or it was recorded after the gate had opened again |
| SignalRaces.QuietRegistryAgrees | src/daemon.rs:674-745 | once every handler is over, the registry agrees with the gate iff none of its entries was recorded late |
| SignalRaces.InjectedWasClean | src/daemon.rs:747-789 | however handlers interleave, an injection is only sent under a lease that was once on record with a prompt that was not dirty |
| SignalRaces.AloneIsServed | src/daemon.rs:674-789 | a handler with which no other interleaves does what `SignalControl` takes as one step: the same registry, gate and lease counter, and an injection sent iff it is queued there |
| SignalRaces.CloseIsServed | src/daemon.rs:451-457 | so does a raw close while the worker lives |
| SignalRaces.StaleLeaseInjects | src/daemon.rs:703-789 | an interleaving in which a lease given back injects while the gate is closed under another |
| SignalRaces.LateRecordStays | src/daemon.rs:459-467 | an interleaving in which a raw open overtakes the record of an acquire, which then stays with the gate open |
| Wire.BigEndianRoundTrip | src/socket.rs:157-167 | an integer survives `width` bytes iff it is below 256^width |
| Wire.BigEndianIsCanonical | src/socket.rs:157-167 | every byte string is the encoding of the integer it decodes to |
| Wire.FrameRoundTrip | src/socket.rs:144-155 | a frame comes back, leaving exactly what follows, iff it is at most 16 MiB; a longer one is written all the same and refused as invalid data |
| Wire.FrameTruncated | src/socket.rs:375-386 | any proper prefix of a frame reads as the end of the stream |
| Wire.ArchiveRoundTrip | src/socket.rs:340-360 | a Signal message comes back iff its archive is at most 16 MiB, also when its length no longer fits 32 bits |
| Wire.FrameReader.ReadFrame | src/socket.rs:144-155 | consumes exactly what the frame grammar says, or reports its error |
| Wire.FrameWriter.WriteFrame | src/socket.rs:262-265 | sends the frame, or the prefix the broken writer took |
| Wire.FrameWriter.WriteArchive | src/socket.rs:246-260 | sends the 32-bit length and the archive, or the prefix the broken writer took |
| Requests.SocketRequestReader.ReadRequest | src/socket.rs:78-119 | consumes exactly what the request grammar says, or reports its error |
| Requests.SocketRequestReader.ReadSignalRequest | src/socket.rs:121-142 | the tag byte already taken is the first length byte of a Signal message |
| Requests.SocketRequestWriter.WriteRequest | src/socket.rs:182-260 | sends the request, or the prefix the broken writer took, or nothing if it cannot be archived |
| Requests.BoundedLengthIsNoTag | src/socket.rs:13-30 | a Signal length within the bound starts with byte 0 or 1, which is no tag |
| Requests.OversizeSignalExactly | src/socket.rs:246-260 | what the reader makes of any archive over 16 MiB, by its length modulo 2^32: if the top byte is a tag it is handled as that request, always accepted for the eight tags without a frame and for the other three iff a frame happens to follow; if it is no tag it is refused, unless the cut length is within the bound: then that many bytes are restored as the query |
| Requests.LongSignalReadsAsCapture | src/socket.rs:246-260 | an archive whose 32-bit length is 0x43xxxxxx, for one, reads as a capture request |
| Requests.RequestRoundTripExactly | src/socket.rs:78-273 | reading what was written, followed by anything, gives the request and leaves exactly the rest iff its payload is at most 16 MiB |
| Requests.TruncatedRequest | src/socket.rs:78-168 | a request cut short anywhere reads as the end of the stream, never as another request |
| Requests.DeliveredOrTruncated | src/socket.rs:78-273 | over a writer that breaks anywhere the reader gets the request or sees the stream end |
| Requests.ParsedWasPrinted | src/socket.rs:78-168 | a stream that reads as a request starts with exactly the bytes the writer sends for it (for Signal: with a framed archive that restores to it) |
| Replies.SocketReplyReader.ReadSnapshot | src/socket.rs:288-290 | a snapshot is a bare frame |
| Replies.SocketReplyReader.ReadAcceptance | src/socket.rs:292-294 | only the acceptance tag is accepted |
| Replies.SocketReplyReader.ReadAttachAcceptance | src/socket.rs:296-310 | a rejection is a refused connection with the daemon's message, read to its end; other tags are invalid data |
| Replies.SocketReplyReader.ReadGateLease | src/socket.rs:312-317 | the tag, then the lease number |
| Replies.SocketReplyReader.ReadGateRelease | src/socket.rs:319-330 | the tag, the lease number, then the held byte count |
| Replies.SocketReplyReader.ReadWaitSatisfied | src/socket.rs:332-334 | only the wait tag is accepted |
| Replies.SocketReplyReader.ReadExitStatus | src/socket.rs:336-338 | a frame that must be UTF-8 |
| Replies.SocketReplyReader.ReadSignalEvent | src/socket.rs:340-360 | a bounded archive that must restore |
| Replies.SocketReplyWriter.WriteReply | src/socket.rs:416-483 | sends the reply, or the prefix the broken writer took, or nothing if it cannot be archived |
| Replies.ReplyRoundTripExactly | src/socket.rs:288-483 | a reader waiting for that reply gets it and leaves exactly the rest iff its payload is at most 16 MiB |
| Replies.TruncatedReply | src/socket.rs:288-402 | a reply cut short anywhere reads as the end of the stream |
| Replies.TagsKeepRepliesApart | src/socket.rs:362-373 | a reader waiting for one tagged reply takes no other for it: invalid data |

## Left out

- Process spawning, PTY creation, threads, signals, `/proc`, command lines and configuration (`src/lifecycle_cli.rs`, `src/bin`, `src/client.rs`, `src/configuration.rs`, `build.rs`): they add only easy members.
- `src/schema/daemon.rs` and the encoding of Signal archives: only their framing is modelled, with `signalize` and `restore` as parameters assumed to be inverse where a lemma says so.
- vt100 and regular expressions: a parser is identified with its inputs (so equal parsers show equal screens under any semantics, and `Transcript.CacheDiffersOtherwise` is about inputs: a library may still show the same), and a regex match is a parameter.
- Interleavings inside one control request: only `SignalRaces` has them, on the gate and the registry alone. There the worker's answer to an open and its flush are one step, and fewer than 2^64 - 2 closes are assumed.
- The registry's pattern identifiers are numbers here instead of the strings made from them, and the read-only listing of patterns is left out.
- Handlers of the actor that only resize, snapshot, project or report (`src/session.rs:1605-1665`, `src/session.rs:1687-1698`) are not messages of `Cell`: `Transcript` has the operations they call.
- Screen projection messages, session and status queries of the Signal plane: they read state that other members already describe.
- `TerminalOutputPort::attach` (`src/session.rs:731-738`), the in-process variant of reserve and activate: the fanout theorems cover its commands, the attach protocol models the daemon's connection.
- What the viewer sends back through `pump_viewer_input`: the gate's traces start at the input port. That the attached viewer is the only human input source is not claimed, since the control plane also takes viewer input.
- Fairness and latency: nothing says that a process takes its next step; `Progress` says what has been done once it has. A retraction only acknowledges in the code, and is not modelled.
- The bytes of a failed live write to a subscriber: the write that ends a subscription may leave part of one more delta on the client's stream; closing of the broadcast channel when the actor stops only ends a stream and is not a step.
- The attach accept byte in front of the stream: viewer streams start with the snapshot.
- A notice queue of capacity 0, whose drop loop would not end; the code only ever passes 1024.
- 64-bit targets are assumed: `usize` is u64, and no byte vector is longer than `isize::MAX`.
- A socket writer that failed once is taken to fail from then on, `flush` to succeed, and a failing read to be an early end of the stream.
- AttachProtocol.PipelineKeepsInv: assumes that fewer than 2^64 leases were granted, because viewer leases are distinct only until their counter saturates (`Fanout.LateDetachIsHarmlessExactly` shows what breaks then).
- Fanout.FanoutKeepsInv: the same bound; `Fanout.ConservedAlways` does not need it.
- ViewerSlot.HoldsExactly: the same bound, for the same reason; `ViewerSlot.ActivatedExactly` does not need it.
- Progress.AttachGetsThrough: the same bound.
- SignalAnswers.RegisteredUntilUnregistered: assumes that fewer than 2^64 - 1 patterns are registered, since the last number is then given again; `SignalAnswers.PatternsExactly` has no bound.
