# SoundShare: verified models

A Dafny model of the parts of SoundShare whose correctness is a matter of argument: the
per-session write queue and its ownership protocol, the life and death of a WebSocket session,
the streaming resampler, the two playback rings with their PREFILL / PLAYING / SOFT_UNDERRUN
machines, and the accounting of the capture loop. `dafny verify dfyconfig.toml` checks everything.

## How it is organised

| files | what they model | form |
|---|---|---|
| `WriteQueue`, `QueueLaws` | the drop-oldest queue with its two budgets, the counters, the watchdog's arithmetic | a class updated in place, each method proved equal to a function on values; laws about the functions |
| `Session`, `SessionLaws`, `SessionHandlers`, `Probe` | any number of senders, the session strand, the socket, the timer and the clock | an interleaved step system with its invariants; the handlers as written, proved to be the steps in a row; an unlocked reader beside it |
| `Streaming` | start and stop messages, the streaming set, the capture thread's send loop | a step system on top of `Session` |
| `Lifetime`, `LifetimeHandlers` | strong references, ForceClose, the posted clear, the destructor | a step system with a decreasing measure; the handlers as written |
| `Resampler`, `ResamplerLaws` | `SincResampler::Process` on whole frames, exact phase, any kernel | a class with its loop; one-pass reference definition |
| `RingBuffer`, `Spsc`, `SpscQueue`, `SpscTearing`, `SpscInside` | the native ring: as atomic calls, and split into loads, copies and stores, with and without overflow | a class over an array; a two-thread step system and its simulation by an atomic queue |
| `Render`, `RenderLaws`, `RenderOutput` | the native render loop, quantum by quantum: its modes, and what it plays | a class over arrays; laws over whole runs |
| `Worklet`, `WorkletLaws`, `WorkletOutput` | the browser's ring and machine, likewise | a class over an array; laws over whole runs |
| `Histogram` | the timing histogram and its quantiles | a class over an array; order-statistic lemmas |
| `CaptureTrace`, `Capture` | idle episodes, inter-arrival gaps, throttled timeout lines | a class whose counters are proved to be functions of the whole event trace |
| `Arithmetic`, `Wrappers` | division and remainder, `Option` | |

A state machine is given by `Enabled(s, l)` and `Apply(s, l)` for a label `l`; `Legal` and `Exec`
extend both to sequences of labels, so "every run" is "every legal sequence". Where a class and its
function share a definition or a constant, there is a law that states it in other terms, with the source's
own numbers. A section under the
queue lock is one step, since every access to the queue holds that lock; everything between two such
sections can be interleaved with everything else. `net::dispatch` from the strand itself may run
`DoWrite` at once: a `DoWrite` step directly after the dispatch is one of the interleavings.

The write path is modelled twice: as steps (`Session`), where the proofs about interleavings are, and
as the methods of the source (`SessionHandlers` for the queue and the socket, `LifetimeHandlers` for the
references to the session), whose contracts say that a handler run without interruption is a certain
sequence of those steps.

## What was found false, and exactly when it is true

- The comment at `SoundShareServer/write_queue.h:66` calls 8 MB the memory ceiling of a queue. Text has
  no byte check and a binary message never evicts text: `QueueLaws.CeilingExact` gives the condition
  under which one more message keeps the ceiling, and by `QueueLaws.CeilingExceeded` any text behind a
  full binary budget passes it. The binary bytes alone never exceed it.
- A stall verdict need not mean that a write is stuck. A session that idled and was kicked just before
  its timer handler runs is closed with nothing in flight (`SessionLaws.IdleSessionJudged`), and so is
  one whose write finished in time but whose `OnWrite` is queued behind the timer handler
  (`SessionLaws.FinishedWriteJudged`). The verdict is right if and only if neither a kicked `DoWrite`
  nor an `OnWrite` is waiting to run (`SessionLaws.VerdictExact`).
- The probe reads its clock, the ownership flag, the pending count and the progress time one after
  another, without the lock, and subtracts unsigned: having seen an owner it cries wolf exactly when the
  baseline is newer than the clock reading (`Probes.ProbeStalledExact`), and `Probes.FalseAlarm` is a run
  in which a message is taken in between.
- "The streaming set holds live sessions only" fails when a start message that was already received is
  handled after ForceClose: the raw pointer stays behind (`Lifetime.Judged` and `Lifetime.StaleMember`
  give the run). It does if and only if ForceClose did not come from the failed read and the last start
  or stop still unread at that moment is a start (`Lifetime.StaleMemberExact`).
- "The capture thread sends to live sessions only" fails with it: the send loop calls every pointer in
  the set without asking whether the session still exists, so it can call a destroyed one in exactly
  those cases (`Lifetime.StrayExact`); in all others it never gets past the disconnect
  (`Lifetime.NeverStray`).
- Block boundaries are invisible to the resampler if and only if the input rate is at most 17 times
  the output rate (`ResamplerLaws.BlockIndependenceExact`): beyond that the next window can start
  behind the end of the input, and the residual that should be skipped is lost instead.
- A push that overflows stores the read position, which `Pop` stores too. As long as overflowing pushes
  and pops do not overlap, the ring is the atomic drop-oldest queue (`SpscQueue.Linearizable`). When one
  runs inside the other they tear it (`Spsc.OverflowTears` is a run), and exactly when is known for each
  place. A push inside a `Pop`, behind both its loads: the samples are still the oldest unread if and
  only if the push rewrites no slot that is still to be copied (`SpscTearing.OverflowInsidePopExact`),
  and the ring is the atomic queue afterwards if and only if what the `Pop` leaves fits or whole laps of
  it are missing (`SpscTearing.OverflowThenStoreExact`). A push between the two loads: the result is
  that of an atomic pop after the push if and only if nothing was asked for or the push went whole laps
  (`SpscTearing.OverflowBetweenLoadsExact`), and the ring is in order afterwards if and only if
  everything was asked for or the push went whole laps (`SpscTearing.BetweenLoadsThenStoreExact`). A
  `Pop` inside a push that has moved the read position: result and ring are right if and only if the
  push is shorter than the ring, or nothing is asked for, or the push and one slot make whole laps
  (`SpscInside.PopInsidePushExact`).
- The native ring keeps capacity - 1 samples on overflow. Whole stereo frames stay whole if and only if
  they fit or that room is even (`RingBuffers.FramesStayWhole`); the client's ring of 192000 slots has
  room for 191999, and one frame too many splits every frame in it (`RingBuffers.FrameSplit`).
- The comment at `SoundShareServer/capture_stats.h:46` promises that at least the asked share of samples
  is at most the reported quantile plus 250 us, and fewer at most the quantile. The first half fails
  exactly when the sample of that rank lies beyond the last bucket, the second exactly when it lies on
  the lower edge of its bucket (`Histograms.ShareExact` for every share; `Histograms.BeyondTheLast` and
  `Histograms.OnTheEdge` are the samples).
- The worklet's comment at `SoundShareServer/embedded_page.h:192-196` places the migration to PREFILL so
  that an underrun does not silence the player for ever. It gets out if and only if some quantum finds
  the fade over and the level back (`WorkletLaws.StaysSoftExact`), and the nominal stream never does
  that, because the machine goes on dequeuing while it is soft: with the page's own parameters, one
  start level, one gap and then the nominal stream is nothing but zero frames for ever (`WorkletLaws.PageFallsSilent`).
  The native machine accumulates and gets out (`RenderLaws.EscapesSilence`).

## Model

| member | source | states |
|---|---|---|
| `WriteQueues.WriteQueue.DropOldestLocked` | SoundShareServer/write_queue.h:279-300 | the scan erases the first message of the class and no other; counts and bytes follow the contents; without one of the class nothing changes |
| `WriteQueues.WriteQueue.MakeRoomForText` | SoundShareServer/write_queue.h:105-109 | the text loop ends, and drops as many of the oldest texts as bring the count below the limit |
| `WriteQueues.WriteQueue.MakeRoomForBinary` | SoundShareServer/write_queue.h:119-125 | the binary loop ends, and drops exactly the binary victims of the policy |
| `WriteQueues.WriteQueue.EnqueueLocked` | SoundShareServer/write_queue.h:99-137 | the whole new state; a binary message above 8 MB is counted as dropped and nothing else happens; every other message is queued last, and the caller becomes the writer exactly if there was none; caches still equal the contents |
| `WriteQueues.WriteQueue.TakeNextLocked` | SoundShareServer/write_queue.h:142-156 | the front message leaves, or ownership is given back, in one section; caches still equal the contents |
| `WriteQueues.WriteQueue.Arm` | SoundShareServer/write_queue.h:303-329 | with a writer or a message pending, on a clock that has not gone back, the wait ends at max(last progress + T_eff, now + 1) and the progress time stays; without one the progress time is now and the wait T_eff; a stopped timer is left alone |
| `WriteQueues.WriteQueue.OnTimer` | SoundShareServer/write_queue.h:331-344 | the stall callback is called exactly when a writer has made no progress for T_eff, and then the timer is off; otherwise the next wait ends at max(last progress + T_eff, now + 1) |
| `WriteQueues.EraseFirstOfClass` | SoundShareServer/write_queue.h:279-300 | erasing at the first hit of the scan is dropping the oldest of the class, and frees its bytes |
| `WriteQueues.DropOldestCounts` | SoundShareServer/write_queue.h:279-300 | a drop lowers the count of its own class by one and leaves the other: why the loops end |
| `QueueLaws.DropOldestNClasses` | SoundShareServer/write_queue.h:279-300 | k drops leave that class's suffix from k on, and the other class untouched |
| `QueueLaws.VictimsAreFewest` | SoundShareServer/write_queue.h:119-125 | the number of victims is the least that leaves room in both budgets, or all binaries |
| `QueueLaws.DropPolicyOptimal` | SoundShareServer/write_queue.h:110-127 | the retained old binaries are the longest suffix that leaves room in both budgets, or none; text is never removed |
| `QueueLaws.TextPolicy` | SoundShareServer/write_queue.h:105-109 | a text message removes no binary, and of the text only the oldest of sixteen |
| `QueueLaws.EnqueueExact` | SoundShareServer/write_queue.h:99-137 | exactly the binary messages above 8 MB are turned away; every other message is queued behind what the policy keeps, with the kick exactly if no writer was at work; every message is queued or counted as dropped afterwards |
| `QueueLaws.ThresholdExact` | SoundShareServer/write_queue.h:79-85 | T - T_eff is the largest whole number of milliseconds that is at most 1000 and at most a tenth of T; T_eff is never below 1 |
| `QueueLaws.BudgetsKept` | SoundShareServer/write_queue.h:99-156 | every enqueue and take keeps at most 200 binaries, at most 16 texts, binary bytes within 8 MB, and caches equal to the contents |
| `QueueLaws.CeilingExact` | SoundShareServer/write_queue.h:105-129 | when one more message leaves the whole queue within the byte budget, if and only if, for each class |
| `QueueLaws.CeilingExceeded` | SoundShareServer/write_queue.h:66 | any non-empty text behind one binary message of the whole budget takes the queue past 8 MB |
| `QueueLaws.MarkIsDrop` | SoundShareServer/write_queue.h:279-300 | dropping from the queue is marking one accepted message in the log, behind everything already taken |
| `QueueLaws.MarkNIsDropN` | SoundShareServer/write_queue.h:99-127 | k drops are k marks: the log minus its dropped messages stays taken ++ queue |
| `Session.OwnershipStep` | SoundShareServer/write_queue.h:15-30 | every step keeps: at most one ownership token; while open, one exactly if `writing`; a non-empty queue implies `writing` |
| `Session.OrderStep` | SoundShareServer/write_queue.h:99-156 | every step keeps: accepted minus dropped = begun, in hand, queued, in order; the counters count them |
| `Session.TimingStep` | SoundShareServer/write_queue.h:303-344 | every step keeps: the armed deadline is at most max(progress + T_eff, arm time + 1); every outstanding write began at the progress time |
| `SessionLaws.WriteOwnership` | SoundShareServer/http_server.cpp:428-517 | in every reachable state writes never overlap, ownership is held once exactly if `writing`, and a waiting message always has an enabled next step |
| `SessionLaws.NoWriteAfterClose` | SoundShareServer/http_server.cpp:463-517 | after ForceClose no message is taken and no write begins, in any continuation |
| `SessionLaws.ClosedExactlyBy` | SoundShareServer/http_server.cpp:503-508 | an open session is closed by exactly three things: the read path, a failed write, and a writer without progress for T_eff; that step takes no message |
| `SessionLaws.FailedWriteIsLast` | SoundShareServer/http_server.cpp:503-517 | in every run, from a write that fails on, no message is taken and no write begins, and its OnWrite closes the session |
| `SessionLaws.NoSendAfterClose` | SoundShareServer/http_server.cpp:428-460 | after ForceClose only senders already past the check of the closed flag add a message, one each |
| `SessionLaws.TimerEnds` | SoundShareServer/write_queue.h:331-344 | after closing the watchdog fires at most once more, exactly if it was waiting, and a verdict stands |
| `SessionLaws.VerdictDisarms` | SoundShareServer/write_queue.h:334-339 | the step that closes by verdict leaves no wait behind and records the time |
| `SessionLaws.LogIsAccepted` | SoundShareServer/write_queue.h:99-137 | the log holds exactly the messages admitted by the critical sections of the run, in their order |
| `SessionLaws.WireOrder` | SoundShareServer/http_server.cpp:428-517 | what is written, then the message in hand, then the queue, is the accepted sequence without the dropped messages; enqueued + oversize = dequeued + dropped + depth |
| `SessionLaws.AdvanceStep` | SoundShareServer/http_server.cpp:463-517 | every action of the owner brings the drain one action closer |
| `SessionLaws.StutterStep` | SoundShareServer/write_queue.h:331-344 | time, the watchdog and new senders do not move the drain |
| `SessionLaws.DrainRun` | SoundShareServer/http_server.cpp:463-517 | with nothing more enqueued, no failure and no verdict, whatever time passes: exactly `Work` actions of the owner drain the queue in order with one take per message and release ownership, and until then the owner can act |
| `SessionLaws.VerdictExact` | SoundShareServer/write_queue.h:331-339 | when the verdict comes, and that a write is stuck in flight then if and only if neither a kicked `DoWrite` nor an `OnWrite` is waiting to run |
| `SessionLaws.IdleSessionJudged` | SoundShareServer/write_queue.h:132-135 | a run in which an idle session is judged stalled with no write begun |
| `SessionLaws.FinishedWriteJudged` | SoundShareServer/http_server.cpp:503-517 | a run in which a write that finished within T_eff is judged because its `OnWrite` is queued behind the timer handler |
| `Probes.ProbeStalledExact` | SoundShareServer/http_server.cpp:562-565 | in every run, what a probe reports that loads the clock, the flag, the pending count and the progress time one by one: when it says stalled, and that it does so wrongly exactly if the baseline is newer than the clock reading |
| `Probes.ProbeClock` | SoundShareServer/http_server.cpp:562-565 | the time a probe compares with is the one at which it began |
| `Probes.OwnerSeenExact` | SoundShareServer/http_server.cpp:562-565 | in every run a probe looks at the progress time exactly if it finds the flag set or a message queued, and otherwise reports no stall |
| `Probes.ReleaseIsProgress` | SoundShareServer/write_queue.h:142-162 | ownership is given back only where progress is noted, at every step |
| `Probes.FalseAlarm` | SoundShareServer/http_server.cpp:562-565 | a run in which a take falls between the readings and the probe reports a stall in the very millisecond of that progress |
| `SessionLaws.OnTimeStep` | SoundShareServer/write_queue.h:303-344 | while a write is under way the armed deadline is at most its start + T_eff + the time the timer handler took between its two clock readings, at every step |
| `SessionLaws.StuckWriteIsJudged` | SoundShareServer/write_queue.h:76-85 | a write that never completes is judged T_eff after it began, late by no more than the timer handlers are late and slow, however much that is; within T if it is within the grace; T_eff + G = T |
| `SessionHandlers.PlainWebSocketSession.constructor` | SoundShareServer/http_server.cpp:346-377 | a started session is an initial state of the step system |
| `SessionHandlers.PlainWebSocketSession.Send` | SoundShareServer/http_server.cpp:428-460 | an uninterrupted send is its check, its section and its dispatch; a closed session takes nothing; an open one queues the message last, and posts a DoWrite exactly if no writer was at work |
| `SessionHandlers.PlainWebSocketSession.DoWrite` | SoundShareServer/http_server.cpp:463-474 | an uninterrupted DoWrite is the steps run, take, begin: an open session begins the front message or gives the writer back, a closed one does nothing |
| `SessionHandlers.PlainWebSocketSession.OnWrite` | SoundShareServer/http_server.cpp:503-517 | an uninterrupted OnWrite is the step that ends the write, then take and begin: it leaves the session closed exactly if it was or the write failed, and then nothing is taken; otherwise progress is noted and the front message begins, or the writer is given back |
| `SessionHandlers.PlainWebSocketSession.OnTimer` | SoundShareServer/write_queue.h:331-344 | an uninterrupted OnTimer is the verdict with ForceClose, or the re-arm |
| `Streaming.DisciplineStep` | SoundShareServer/main.cpp:444-458 | every step keeps: membership in the streaming set implies that the config is accepted or the session closed, and every accepted audio frame has a config before it |
| `Streaming.KeptIsConfigured` | SoundShareServer/main.cpp:444-458 | if no text is dropped, what survives of the accepted sequence has a config before each audio frame |
| `Streaming.ConfigPrecedesAudio` | SoundShareServer/main.cpp:702-713 | in every run in which no text is dropped, every audio frame whose write begins is preceded on the wire by an audio_config |
| `Streaming.MemberExact` | SoundShareServer/main.cpp:444-463 | in every run the session is in the set exactly if an insertion came after every stop and disconnect, or it was in it and there was none |
| `Streaming.StopEndsSending` | SoundShareServer/main.cpp:458-463 | in every run, from a stop or disconnect until the next insertion no audio is accepted |
| `Streaming.SendsWhileStreaming` | SoundShareServer/main.cpp:702-713 | a callback of the capture thread that finds an open session in the set queues its audio, last |
| `Streaming.MutexIsReleased` | SoundShareServer/main.cpp:703-713 | the capture thread is at most three actions from releasing the mutex, whatever its send has got to |
| `Streaming.StartLeadsToSending` | SoundShareServer/main.cpp:447-457 | a start message that can be handled is at most five actions away from membership, and the next callback then sends |
| `Lifetime.InvStep` | SoundShareServer/http_server.cpp:572-663 | every step keeps: the session exists exactly while something refers to it; open sessions are held, watched and read; closed ones have their cycle cut or a clearing task on the way |
| `Lifetime.Safety` | SoundShareServer/http_server.cpp:317-324 | in every run: destroyed and disconnected at most once and in step, nothing but the weak timer left behind, the stall callback never cleared while it runs, the capture thread inside a send only before the disconnect unless it has called a destroyed session |
| `Lifetime.HandlersBalance` | SoundShareServer/http_server.cpp:388-517 | over every run nothing is lost: the task of each kick has run or is pending, each write begun has completed or is in flight, and messages are handled in the order in which they came |
| `Lifetime.CallbackExact` | SoundShareServer/main.cpp:705-707 | a callback of the capture thread gets into the send of an open session or of a destroyed one, and leaves a closed one alone |
| `Lifetime.TimerCloses` | SoundShareServer/write_queue.h:331-344 | a timer handler closes a session exactly with a verdict, an active timer, a callback to call and the session alive |
| `Lifetime.ConnectStep` | SoundShareServer/http_server.cpp:346-377 | the connect callback comes once, with the accept |
| `Lifetime.ClosedStep` | SoundShareServer/http_server.cpp:597-663 | after ForceClose every step lowers one measure over holders, handlers and buffered input, but for callbacks of the capture thread, which change nothing as long as the session exists |
| `Lifetime.ClosedProgress` | SoundShareServer/http_server.cpp:597-663 | and some step is enabled until the session is destroyed |
| `Lifetime.Death` | SoundShareServer/http_server.cpp:597-663 | so every run after ForceClose, for whatever reason, has boundedly many steps of the session's own, and where none is left it is destroyed once, disconnected once, and unreferenced |
| `Lifetime.StaleMemberExact` | SoundShareServer/main.cpp:444-463 | for every run from ForceClose to destruction: the set still holds the session if and only if the failed read was not the cause and the last start or stop unread at ForceClose is a start |
| `Lifetime.WillStayRun` | SoundShareServer/http_server.cpp:388-422 | what the unread messages will do to the membership is settled at ForceClose and no later step changes it |
| `Lifetime.StrayExact` | SoundShareServer/main.cpp:702-712 | some run from ForceClose lets the capture thread call the destroyed session if and only if the failed read was not the cause and the last start or stop unread at ForceClose is a start |
| `Lifetime.NeverStray` | SoundShareServer/main.cpp:702-712 | in all other cases no run does, and the capture thread is inside a send only before the disconnect |
| `Lifetime.Judged` | SoundShareServer/http_server.cpp:572-594 | the run in which the watchdog closes a session with a start message still unread |
| `Lifetime.StaleMember` | SoundShareServer/http_server.cpp:388-422 | from there, a run that handles that message and ends with the destroyed session in the set, where the next callback of the capture thread calls it |
| `LifetimeHandlers.ForceCloseIsSteps` | SoundShareServer/http_server.cpp:597-663 | ForceClose run in one go is its steps in a row: the session outlives all but the last |
| `LifetimeHandlers.ReadErrorIsSteps` | SoundShareServer/http_server.cpp:402-415 | a failed read is its steps in a row, whether ForceClose came first or not |
| `LifetimeHandlers.WriteErrorIsSteps` | SoundShareServer/http_server.cpp:503-508 | likewise a failed write |
| `LifetimeHandlers.WriteStallIsSteps` | SoundShareServer/http_server.cpp:572-594 | likewise the stall callback: nothing is destroyed before the posted clearing task |
| `LifetimeHandlers.ClosedRemains` | SoundShareServer/http_server.cpp:317-324 | after any steps that leave a session closed: disconnected once, no self reference, and destroyed if and only if no handler is pending |
| `LifetimeHandlers.SessionReferences.CompleteAccept` | SoundShareServer/http_server.cpp:346-377 | from the invariant: a failed accept destroys the session at once, a successful one leaves it held, watched and read |
| `LifetimeHandlers.SessionReferences.CompleteRead` | SoundShareServer/http_server.cpp:402-415 | from the invariant: a failed read handler and its return are the steps in a row, and the session is destroyed if and only if no other handler is pending |
| `LifetimeHandlers.SessionReferences.CompleteWrite` | SoundShareServer/http_server.cpp:503-508 | likewise a failed write |
| `LifetimeHandlers.SessionReferences.CompleteStall` | SoundShareServer/http_server.cpp:572-594 | likewise the stall callback: the session is closed and disconnected but not destroyed, and a clearing task is on its way |
| `LifetimeHandlers.SessionReferences.CompleteClear` | SoundShareServer/http_server.cpp:591-593 | the clearing task cuts the cycle, and destroys the session if and only if no other handler is pending |
| `Resampler.SincResampler.WalkOutputs` | SoundShareServer/main.cpp:171-192 | the loop's outputs and final phase; every window it reads is inside the combined buffer |
| `Resampler.SincResampler.ProcessBlock` | SoundShareServer/main.cpp:143-210 | outputs, residual and phase of one call |
| `ResamplerLaws.CountExact` | SoundShareServer/main.cpp:175-179 | exactly the first ceil((n - 16) * out / in) outputs of a stream of n frames have their whole window |
| `ResamplerLaws.PositionIs` | SoundShareServer/main.cpp:172-173 | output k sits on frame 8 + floor(k * in / out) with fraction k * in mod out, wherever its buffer starts |
| `ResamplerLaws.WalkIsReference` | SoundShareServer/main.cpp:171-192 | a walk that starts in mid-stream emits the rest of the one-pass reference and stops where it ends |
| `ResamplerLaws.NextWindowReachable` | SoundShareServer/main.cpp:197-204 | up to 17 input frames an output, the next window starts inside the stream and the residual is at most 16 frames |
| `ResamplerLaws.CallIsAligned` | SoundShareServer/main.cpp:143-210 | one call adds exactly the outputs its block makes possible and leaves a state equivalent to the whole stream |
| `ResamplerLaws.BlocksDoNotMatter` | SoundShareServer/main.cpp:142-210 | every partition of every stream gives the outputs of the one-pass reference |
| `ResamplerLaws.SeamIsWrong` | SoundShareServer/main.cpp:197-207 | beyond 17 input frames an output two blocks come out wrong at their seam |
| `ResamplerLaws.BlockIndependenceExact` | SoundShareServer/main.cpp:142-210 | block independence holds if and only if inRate <= 17 * outRate |
| `ResamplerLaws.WithinReserve` | SoundShareServer/main.cpp:159-163 | no call exceeds the estimate it reserves for |
| `RingBuffers.RingBuffer.Available` | SoundShareClient/ring_buffer.h:16-21 | the length of the contents |
| `RingBuffers.RingBuffer.FreeSpace` | SoundShareClient/ring_buffer.h:23 | one slot less than the capacity, minus the contents |
| `RingBuffers.RingBuffer.Push` | SoundShareClient/ring_buffer.h:26-45 | the newest capacity - 1 samples of contents ++ data stay, for data of any length |
| `RingBuffers.RingBuffer.Pop` | SoundShareClient/ring_buffer.h:48-60 | a prefix leaves, is copied out in order, and nothing behind it is touched |
| `RingBuffers.FramesStayWhole` | SoundShareClient/ring_buffer.h:34-37 | stereo frames survive a push exactly when they fit or the room is even |
| `RingBuffers.FrameSplit` | SoundShareClient/main.cpp:162-164 | one frame more than the client's ring has room for drops a left sample, so that every frame in it begins with a right one |
| `Spsc.ProduceStep` | SoundShareClient/ring_buffer.h:26-45 | every producer step that does not overflow keeps the published samples in their slots |
| `Spsc.ConsumeStep` | SoundShareClient/ring_buffer.h:48-60 | every consumer step copies the next pushed sample |
| `Spsc.QueueRefinement` | SoundShareClient/ring_buffer.h:26-60 | in every interleaving without overflow what is read is a prefix of what is pushed, nothing is read before it is published, and the two loops never touch one slot |
| `SpscQueue.SimDecide` | SoundShareClient/ring_buffer.h:29-37 | the decision of a push against the atomic queue: the drop is what the newest samples need |
| `SpscQueue.SimPublish` | SoundShareClient/ring_buffer.h:44 | publishing is the atomic push, overflowing or not |
| `SpscQueue.SimLoad` | SoundShareClient/ring_buffer.h:49-52 | loading the write position is the atomic pop |
| `SpscQueue.Linearizable` | SoundShareClient/ring_buffer.h:26-60 | in every interleaving in which overflowing pushes and pops do not overlap, the ring is the atomic drop-oldest queue: the same samples returned in the same order, the same contents between calls |
| `SpscTearing.SlotHolds` | SoundShareClient/ring_buffer.h:26-60 | in every run, whatever overflows or overlaps: a slot holds the last sample written to it, which is the one of a given position if and only if the copy loop has not come round to it again |
| `SpscTearing.PushRuns` | SoundShareClient/ring_buffer.h:26-45 | what a whole overflowing push leaves in the slots and positions, wherever the consumer is |
| `SpscTearing.PopRuns` | SoundShareClient/ring_buffer.h:54-59 | what the rest of a Pop copies from there and stores |
| `SpscTearing.OverflowInsidePopExact` | SoundShareClient/ring_buffer.h:36-58 | an overflowing push inside a Pop: the samples returned are the oldest unread, whatever is pushed, if and only if no slot still to be copied is rewritten |
| `SpscTearing.OverflowThenStoreExact` | SoundShareClient/ring_buffer.h:36-58 | and the ring is the atomic queue with the Pop before the push if and only if what the Pop left and the push fit, or whole laps of it are missing |
| `SpscTearing.OverflowBetweenLoadsExact` | SoundShareClient/ring_buffer.h:36-52 | an overflowing push between the two loads of a Pop: the samples returned are those of an atomic pop after it, whatever is pushed, if and only if nothing is asked for or the push goes whole laps |
| `SpscTearing.BetweenLoadsThenStoreExact` | SoundShareClient/ring_buffer.h:36-58 | and after the Pop's store the ring is the atomic queue if and only if everything was asked for or the laps are whole |
| `SpscInside.DroppingIsMidPush` | SoundShareClient/ring_buffer.h:34-39 | every overflowing push of the simulation is, between its store of the read position and its publication, in the state the next row starts from |
| `SpscInside.PopInsidePushExact` | SoundShareClient/ring_buffer.h:36-58 | a Pop inside such a push: it returns the oldest undropped published samples, and the ring is the drop-oldest queue once the push is over, if and only if the push is shorter than the ring, or nothing is asked for, or it and one slot make whole laps |
| `Spsc.TearingReached` | SoundShareClient/ring_buffer.h:48-54 | a run from the empty ring into the middle of a Pop |
| `Spsc.TornReached` | SoundShareClient/ring_buffer.h:26-45 | from there, a whole push that overflows |
| `Spsc.OverflowTears` | SoundShareClient/ring_buffer.h:36-58 | that Pop then returns a sample out of order and discards unread ones |
| `Renders.FillHeld` | SoundShareClient/wasapi_render.cpp:22-33 | every sample behind the partial read is the held one of its channel, and an odd last one is left alone |
| `Renders.RenderLoop.Shape` | SoundShareClient/wasapi_render.cpp:487-496 | the envelope loop: the level after n frames in closed form, one gain for all channels of a frame |
| `Renders.RenderLoop.Soften` | SoundShareClient/wasapi_render.cpp:441-460 | a soft quantum dequeues nothing and leaves on level and silence |
| `Renders.RenderLoop.Play` | SoundShareClient/wasapi_render.cpp:461-482 | a full read updates the held sample; a short one counts an underrun and holds the previous block's |
| `Renders.RenderLoop.RenderBlock` | SoundShareClient/wasapi_render.cpp:405-498 | one iteration for any level seen at its top and any contents found by its dequeue: silence exactly while the mode is PREFILL and the level below the start level, later the resume level; otherwise state, ring, scratch block and rendered block are those the laws of `RenderOutput` are about |
| `Renders.RenderLoop.NoteLevel` | SoundShareClient/wasapi_render.cpp:505-513 | once playing has started the recorded minimum becomes the lower of what it was and the level read then; before, nothing |
| `Renders.RampNext` | SoundShareClient/wasapi_render.cpp:488-491 | stepping towards the target and no further is the closed form, and stays in [0, 1] |
| `Renders.FadeEnds` | SoundShareClient/wasapi_render.cpp:397-399 | from any level the fade is over after fadeSamples / 2 frames |
| `RenderLaws.TurnKeepsInv` | SoundShareClient/wasapi_render.cpp:405-513 | every quantum keeps: envelope in [0, 1]; PREFILL implies envelope 0, so every start ramps from 0 |
| `RenderLaws.EnvelopeSlope` | SoundShareClient/wasapi_render.cpp:487-491 | the envelope moves by at most one step a frame |
| `RenderLaws.SoftTurn` | SoundShareClient/wasapi_render.cpp:441-460 | while soft the level never falls, and PREFILL is entered exactly on level and silence |
| `RenderLaws.SoftRun` | SoundShareClient/wasapi_render.cpp:441-496 | over any soft run the level is what arrived and the envelope depends only on the frames played |
| `RenderLaws.FirstExit` | SoundShareClient/wasapi_render.cpp:448-457 | a run that does not stay soft leaves at one quantum, to PREFILL |
| `RenderLaws.ResumesPlaying` | SoundShareClient/wasapi_render.cpp:408-436 | from PREFILL with the level back the very next quantum is PLAYING with a full read |
| `RenderLaws.EscapesSilence` | SoundShareClient/wasapi_render.cpp:405-483 | from any soft state, under every arrival schedule and every sequence of quanta, once fade and level are reached the machine is out and the quantum after plays in full |
| `RenderLaws.TurnStaysPaid` | SoundShareClient/wasapi_render.cpp:408-481 | every quantum keeps underruns paid for by samples dequeued, and the next one in advance |
| `RenderLaws.AntiFlap` | SoundShareClient/wasapi_render.cpp:408-481 | over every run from the start, underruns * resume level <= samples popped <= samples pushed |
| `RenderLaws.HeldAt` | SoundShareClient/wasapi_render.cpp:460-496 | a soft run plays the held sample under one fade, however it is divided into quanta |
| `RenderLaws.HeldSlope` | SoundShareClient/wasapi_render.cpp:487-496 | consecutive held frames of a channel differ by at most one envelope step of the held value, plus one for rounding |
| `RenderLaws.HeldSilence` | SoundShareClient/wasapi_render.cpp:487-496 | and they are zero from frame fadeSamples / 2 on |
| `RenderOutput.RoundExact` | SoundShareClient/wasapi_render.cpp:494 | rounding is to a nearest integer, and away from zero between two |
| `RenderOutput.HalfExact` | SoundShareClient/wasapi_render.cpp:30 | the mean of the held pair is truncated towards zero |
| `RenderOutput.RampIsLinear` | SoundShareClient/wasapi_render.cpp:397-399 | the envelope after n frames is min(1, env + 2n / fadeSamples) or max(0, env - 2n / fadeSamples) |
| `RenderOutput.FullReadPlays` | SoundShareClient/wasapi_render.cpp:463-498 | every sample of a full read is within 1/2 of the sample popped times that gain, the same for all channels of a frame |
| `RenderOutput.FullVolume` | SoundShareClient/wasapi_render.cpp:463-498 | a full read at full gain plays the samples popped, unchanged |
| `RenderOutput.ShortReadHolds` | SoundShareClient/wasapi_render.cpp:473-498 | a quantum that runs dry plays what whole frames there were and then the held value of each channel, fading from its first frame on |
| `RenderOutput.HeldIsLastFrame` | SoundShareClient/wasapi_render.cpp:465-472 | what is held later is the last frame of the last full read, channel by channel |
| `RenderOutput.WaitingIsSilent` | SoundShareClient/wasapi_render.cpp:408-421 | below its level the device gets zeros, the ring is left alone and the envelope is 0 |
| `RenderOutput.TurnExact` | SoundShareClient/wasapi_render.cpp:408-481 | the mode after a quantum, if and only if, from the levels alone; the counter rises exactly on entering SOFT_UNDERRUN |
| `RenderOutput.UnderrunsExact` | SoundShareClient/wasapi_render.cpp:473-477 | over every run the underrun counter is the number of entries into SOFT_UNDERRUN |
| `RenderOutput.FirstStart` | SoundShareClient/wasapi_render.cpp:408-434 | from the start, silence lasts exactly until the start level has arrived |
| `RenderOutput.LaterStart` | SoundShareClient/wasapi_render.cpp:408-434 | after any run that has played, PREFILL lasts exactly until the resume level is there |
| `RenderOutput.EverStartedExact` | SoundShareClient/wasapi_render.cpp:433-434 | the two are told apart by whether any quantum of the run was not silence |
| `RenderOutput.RingIsRest` | SoundShareClient/wasapi_render.cpp:441-482 | over every run without overflow, in whatever modes, samples leave the ring from the front: what is left is the rest of what was pushed |
| `RenderOutput.PlaysWhatWasPushed` | SoundShareClient/wasapi_render.cpp:463-498 | over every run of full reads without overflow the output is what was pushed, sample by sample and in order, under one rise of the envelope, however it is divided into quanta |
| `RenderOutput.PlaysUnchanged` | SoundShareClient/wasapi_render.cpp:463-498 | at full gain output ++ ring == ring before ++ everything pushed |
| `RenderOutput.SoftPlaysHeld` | SoundShareClient/wasapi_render.cpp:460-498 | every sample of a soft run is within 1/2 of the held value of its channel times one falling gain |
| `RenderOutput.MinimumExact` | SoundShareClient/wasapi_render.cpp:422-513 | the recorded minimum is the lowest level read since playing last started, whatever was before |
| `Worklets.PCMPlayerProcessor.OnAudio` | SoundShareServer/embedded_page.h:116-130 | the newest bufferSize samples of contents ++ message stay, for messages of any length; frame boundaries survive overflow |
| `Worklets.PCMPlayerProcessor.OnClear` | SoundShareServer/embedded_page.h:131-139 | empty ring and PREFILL; the counters stay |
| `Worklets.PCMPlayerProcessor.PositionsAgree` | SoundShareServer/embedded_page.h:116-177 | read position + count = write position modulo the size, always |
| `Worklets.PCMPlayerProcessor.FrameSlots` | SoundShareServer/embedded_page.h:166-171 | on a frame boundary both positions are even slots: a frame never starts on its right channel |
| `Worklets.PCMPlayerProcessor.ReadBlock` | SoundShareServer/embedded_page.h:165-176 | a prefix of whole frames leaves the ring in order; the held sample is its last frame |
| `Worklets.PCMPlayerProcessor.ProcessBlock` | SoundShareServer/embedded_page.h:143-227 | state, ring and block of one call are those of `Process`, which the laws of `WorkletOutput` are about |
| `WorkletLaws.SoftQuantum` | SoundShareServer/embedded_page.h:164-199 | a soft quantum dequeues a block whenever it can, and leaves only on a level seen before that |
| `WorkletLaws.UnderrunLevel` | SoundShareServer/embedded_page.h:178-185 | an underrun leaves less than one block |
| `WorkletLaws.StaysSoftExact` | SoundShareServer/embedded_page.h:164-199 | a run stays in SOFT_UNDERRUN if and only if no quantum finds the fade over and the level back, both given by the lengths of the arrivals alone |
| `WorkletLaws.SoftRun` | SoundShareServer/embedded_page.h:164-209 | level and envelope after any soft run |
| `WorkletLaws.SoftSilence` | SoundShareServer/embedded_page.h:201-209 | frame k of a soft run is zero in both channels once the fade of k + 1 frames is over, however the run is divided into quanta |
| `WorkletLaws.LevelStaysLow` | SoundShareServer/embedded_page.h:164-199 | under every leaky-bucket schedule no quantum finds the resume level, and the ring ends below one block and the burst |
| `WorkletLaws.LockedOut` | SoundShareServer/embedded_page.h:164-209 | after an underrun, under every schedule of at most k * need + B samples in k quanta with 2 * need + B <= resume, the machine is soft for ever, and from frame fadeSamples / 2 on every output frame is zero |
| `WorkletLaws.NominalStreamLockedOut` | SoundShareServer/embedded_page.h:192-199 | one block of samples a quantum is such a schedule |
| `WorkletLaws.StartsAndStarves` | SoundShareServer/embedded_page.h:152-190 | from construction: a start level of whole blocks is played to the last and the next quantum underruns |
| `WorkletLaws.PageFallsSilent` | SoundShareServer/embedded_page.h:95-107 | with the page's parameters, from construction: one start level, one gap, then the nominal stream, and from its frame 239 on every output frame is zero |
| `WorkletOutput.FullReadPlays` | SoundShareServer/embedded_page.h:165-209 | frame i of a full read is the i-th pair of the ring, left on the left, or half its sum, times min(1, env + 2(i + 1) / fadeSamples), or while soft max(0, env - 2(i + 1) / fadeSamples) |
| `WorkletOutput.FullVolume` | SoundShareServer/embedded_page.h:165-176 | at full gain the pairs of the ring unchanged, or their means |
| `WorkletOutput.ShortReadHolds` | SoundShareServer/embedded_page.h:178-209 | a call that runs dry repeats the held frame under the fall and leaves the ring alone |
| `WorkletOutput.HeldIsLastFrame` | SoundShareServer/embedded_page.h:165-190 | the held frame is the last one read; a call that runs dry or waits keeps it |
| `WorkletOutput.WaitingIsSilent` | SoundShareServer/embedded_page.h:152-160 | below its level the output is zero, the ring is left alone and the envelope is 0 |
| `WorkletOutput.TurnExact` | SoundShareServer/embedded_page.h:152-199 | the mode after a call, if and only if, from the level alone; the counter rises exactly on an underrun |
| `WorkletOutput.UnderrunsExact` | SoundShareServer/embedded_page.h:181-185 | over every run the underrun counter counts the underruns |
| `WorkletOutput.FirstStart` | SoundShareServer/embedded_page.h:152-162 | from construction, silence lasts exactly until the start level has arrived |
| `WorkletOutput.LaterStart` | SoundShareServer/embedded_page.h:152-162 | a machine that has played starts again exactly at the resume level |
| `WorkletOutput.PlaysWhatArrived` | SoundShareServer/embedded_page.h:165-209 | over every run of full reads at full gain without overflow the output is what was received, pair by pair and in order, and the rest is in the ring |
| `WorkletOutput.MinimumExact` | SoundShareServer/embedded_page.h:211-215 | the recorded minimum is the lowest level any call outside PREFILL has left |
| `Histograms.TimingHistogram.AddUs` | SoundShareServer/capture_stats.h:29-43 | bins, count, sum, maximum and saturated are those of the samples recorded so far |
| `Histograms.TimingHistogram.Walk` | SoundShareServer/capture_stats.h:58-64 | the walk stops, within the bins, at the bucket where the cumulative count reaches the rank |
| `Histograms.TimingHistogram.QuantileMs` | SoundShareServer/capture_stats.h:47-66 | a quarter millisecond for each bucket below the one of a rank r that is the least with r >= q * n, or 1 or n beyond the ends |
| `Histograms.TimingHistogram.NeededRank` | SoundShareServer/capture_stats.h:50-57 | the computed rank is the one with r - 1 < q * n <= r; 1 for q <= 0 and n for q >= 1 |
| `Histograms.TimingHistogram.Reset` | SoundShareServer/capture_stats.h:68-76 | a valid histogram of no samples |
| `Histograms.QuantileIsOrderStatistic` | SoundShareServer/capture_stats.h:45-66 | for every multiset and rank the walk's bucket is that of the r-th smallest sample, and no other |
| `Histograms.QuantileIsClose` | SoundShareServer/capture_stats.h:45-66 | unsaturated, the reported edge is at most one bucket below the true value; it grows with the rank |
| `Histograms.EdgeExact` | SoundShareServer/capture_stats.h:46 | when each half of the comment holds, if and only if: the sample of the rank is within the last bucket, and is not on the edge of its bucket |
| `Histograms.ShareExact` | SoundShareServer/capture_stats.h:45-66 | for every share q of every multiset of samples, with v the reported edge: at least q of the samples are at most v + 250 us unless the sample of that rank is above 1.024 s, and less than q are at most v unless that sample is v |
| `Histograms.TotalsExact` | SoundShareServer/capture_stats.h:29-43 | the maximum is a sample that no sample exceeds; the saturated count is the number of samples of at least 1.024 s |
| `Histograms.SumOfParts` | SoundShareServer/capture_stats.h:29-43 | the sum of two windows is the sum of their sums |
| `Histograms.OnTheEdge` | SoundShareServer/capture_stats.h:46 | the sample 250 us breaks the second half |
| `Histograms.BeyondTheLast` | SoundShareServer/capture_stats.h:46 | the sample 2 s breaks the first half |
| `CaptureTrace.TotalIdleMonotone` | SoundShareServer/wasapi_capture.cpp:631-658 | no event, a reset included, lowers the total idle time or the number of episodes |
| `CaptureTrace.ThrottledByCount` | SoundShareServer/wasapi_capture.cpp:517-526 | any stretch with n timeouts logs at most ceil(n / 50) lines |
| `CaptureTrace.ThrottledByRun` | SoundShareServer/wasapi_capture.cpp:517-526 | one idle run logs at most one line, however long |
| `CaptureTrace.LinesExact` | SoundShareServer/wasapi_capture.cpp:521-526 | as long as the loop is never idle, exactly the timeouts 1, 51, 101, ... get a line |
| `CaptureTrace.RunSinceData` | SoundShareServer/wasapi_capture.cpp:631-657 | the current run is the event wakes without data since the last wake with data, which closed the run before it |
| `CaptureTrace.EpisodeExact` | SoundShareServer/wasapi_capture.cpp:635-638 | an episode is counted at the tenth event wake in a row without data and at no other event |
| `CaptureTrace.IdleMsExact` | SoundShareServer/wasapi_capture.cpp:634-655 | a run of ten or more wakes counts its length in whole milliseconds, a shorter one nothing |
| `CaptureTrace.TotalIdleFits` | SoundShareServer/wasapi_capture.cpp:631-658 | idle times do not overlap: over every trace their total is no longer than the time that has passed |
| `CaptureTrace.GapsExact` | SoundShareServer/wasapi_capture.cpp:664-683 | between data wakes with no idle episode every gap is recorded, each with its length |
| `CaptureTrace.GapRecorded` | SoundShareServer/wasapi_capture.cpp:664-683 | a data wake adds its gap to the last one exactly if that one is in the window; the run that decides on idleness is that of the whole trace |
| `CaptureTrace.NewGapExact` | SoundShareServer/wasapi_capture.cpp:664-683 | and then exactly if the last one was not at time 0 and fewer than ten wakes without data lie between |
| `CaptureTrace.AccountsStep` | SoundShareServer/wasapi_capture.cpp:631-658 | how one event changes the runs of wakes without data |
| `CaptureTrace.ArrivalsStep` | SoundShareServer/wasapi_capture.cpp:664-683 | how one event changes the gaps of the current window |
| `Capture.CaptureStats.ResetWindow` | SoundShareServer/capture_stats.h:123-136 | the window is cleared and the epoch moves on; episodes and total idle time stay |
| `Capture.CaptureLoop.AccountIdle` | SoundShareServer/wasapi_capture.cpp:631-658 | the idle block keeps every counter equal to its meaning on the trace |
| `Capture.CaptureLoop.RecordArrival` | SoundShareServer/wasapi_capture.cpp:664-683 | the histogram gains the gap exactly when no idle episode and no reset lies between the two data wakes |
| `Capture.CaptureLoop.OnWake` | SoundShareServer/wasapi_capture.cpp:502-684 | one iteration keeps all counters equal to the functions of the trace; wakes and timeouts are counted, and the snapshots of the current and of the last idle time are the length of the run |
| `Capture.CaptureLoop.OnReset` | SoundShareServer/capture_stats.h:123-136 | so does a reset between any two wakes |
| `Capture.CaptureLoop.Reported` | SoundShareServer/wasapi_capture.cpp:502-684 | episodes are the maximal runs of at least ten wakes without data, total idle time the sum of their lengths, the histogram exactly the gaps of the current window, the log lines those of the trace |

## Left out

- `SslWebSocketSession`: the same code as the plain session.
- Fault injection switches: the default build is modelled.
- Sockets, TLS, WASAPI, device recovery, the HTTP routes, JSON, logging, the page's UI, the client's reconnect loop. A write completes, fails or never completes; reads of a closed socket fail once the buffered messages are used up; the start and stop tests on the message text are a three-way classification.
- The stopped io_context (reason `server_stop`): the death of a session is shown for handlers that still run.
- The kernel table, the Lanczos weights and the dither. The kernel is any function of the window and of the fraction; the channels of a frame are one value.
- Floating point rounding: phase and envelope are exact rationals or reals. The worklet's two channel arrays are one array of frames.
- Integer widths: counters, bins and samples are unbounded; only the watchdog's subtraction is taken modulo 2^64. The narrowing of held and scaled samples to 16 bits is not modelled.
- `TakeDropLogEvent`, the streaming statistics, `callbackCritical`, the peak level and the statistics messages: only easy members.
- Memory order: the steps of `Session`, `Lifetime` and `Spsc` are sequentially consistent.
- SessionLaws.StuckWriteIsJudged: the threshold is constant, as in the default build; how late timer handlers run and how long they take between their two clock readings are parameters.
- Probes.ProbeStalledExact: what one locked section stores becomes visible to the unlocked probe at once.
- Streaming.ConfigPrecedesAudio: for runs in which no text message of the session is dropped, since a dropped config is not sent again; one session.
- Spsc.QueueRefinement: for runs in which no push overflows; `SpscQueue.Linearizable` covers overflowing pushes that do not overlap a Pop.
- SpscTearing.OverflowInsidePopExact: the push runs whole between two steps of the Pop, as the Pop of `SpscInside` does between two steps of the push; for copy loops interleaved in any other way there is `SpscTearing.SlotHolds`, sample by sample.
- RenderOutput.PlaysWhatWasPushed: for runs in which no push overflows the ring; what an overflow drops is stated by `RingBuffers.RingBuffer.Push`. Likewise `WorkletOutput.PlaysWhatArrived`, and that one at full gain; under the ramp there is `WorkletOutput.FullReadPlays`, call by call.
- RenderLaws.AntiFlap: for a ring that is not cleared during the run, and a resume level no higher than the start level.
- Histograms.TimingHistogram.QuantileMs: not concurrent with recording, so the fall-through behind the loop is unreachable; the product q * n is exact.
- Capture.CaptureLoop.OnWake: without device recovery, with a monotone clock, and with a reset atomic relative to an iteration; the drain is the number of frames it got.
