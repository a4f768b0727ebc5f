# Collaboration engine: a verified model

The server lets several websocket clients edit one USD stage at the same time. It is
authoritative: every edit goes through a per-session queue to a single consumer, which
applies it, gives the new state a version (`server_seq`) and tells the other clients.
This project models that engine, layer by layer, and proves what each layer promises to
the one above. Two components beside it, the PNG writer and the rate limiters, are
modelled as well.

| file | what it models |
|---|---|
| `Mailbox.dfy`, `SequentialMailbox.dfy`, `Arith.dfy` | the lock-free bounded mailbox: a step system with one shared access per step, and the same mailbox as an object |
| `Scheduler.dfy`, `SchedulerProgress.dfy` | submitters, posted and inline drains and shutdown of one session, as threads over three atomics and two mailboxes; what they must refuse, take and bring to the handler |
| `Executor.dfy`, `ExecutorProgress.dfy` | the worker executor with its condition variable; what it must run |
| `Versions.dfy` | the version book that judges client updates, against the full history |
| `Protocol.dfy`, `Transforms.dfy`, `SessionServer.dfy` | the update protocol: one server, any number of clients, FIFO channels, transforms, creations, active states, joins, rejections, corrections and reloads; and the session's handlers as an object |
| `ProtocolInvariants.dfy`, `Convergence.dfy`, `ProtocolTheorems.dfy`, `Agreement.dfy` | what every step of the protocol keeps, what every run guarantees, and when clients and server agree |
| `Answers.dfy`, `ProtocolProgress.dfy`, `Paths.dfy` | what each frame tells, that the protocol can always come to rest, and which prims can be read |
| `ProtocolRuns.dfy`, `ProtocolGroups.dfy`, `Divergence.dfy` | runs in which they do not agree, and frames that share a version |
| `Names.dfy`, `Scene.dfy`, `SceneLaws.dfy`, `Snapshot.dfy`, `StableSort.dfy`, `Join.dfy`, `SessionStage.dfy`, `Commit.dfy` | the scene: creation, soft delete, transforms, the join snapshot, the commit |
| `Checksums.dfy`, `Zlib.dfy`, `Png.dfy` | the PNG writer and a decoder for what it writes |
| `RateLimiter.dfy`, `LimiterLaws.dfy` | the request limiter and the login throttler, and what their answers say about the requests before |
| `Wrappers.dfy` | `Option` |

`dafny verify dfyconfig.toml` checks everything.

## How the models are built

**Step systems.** Concurrent code is a state, an `Enabled` predicate and a `Next`
function; a run is any sequence of enabled steps from an initial state, so every theorem
about runs holds for every interleaving and every number of threads or clients. Each
system has one inductive invariant (`Inv`), kept by every step, from which the theorems
follow.

**Progress.** Invariants alone would hold of a system that refuses everything. For each
step system there are therefore theorems that say what it must do: a refusal has its one
reason, and from every state of every run the work taken so far can be finished by a
continuation that brings no new work (`SchedulerProgress`, `ExecutorProgress`,
`ProtocolProgress`, `Mailbox.PopSucceeds`, `Mailbox.EmplaceSucceeds`).

**Objects.** Where the code works on one object from one thread, the model is a class
whose methods are proved against functions of the old state: `SessionVersions`, `Session`,
`BoundedMpscMailbox`, `LiveStage`, `SlidingWindowLimiter`, `LoginThrottler`.

**Convergence.** `Agreement.Converges` says that whenever nothing is queued or in flight, a
client that got its snapshot shows the server's transform of every prim that exists, in the
file or created by the session. Runs contain transforms, creations, active-state changes,
joins, rejections, corrections and reloads by any number of clients; a reload may change,
add and remove prims. Two things are asked of a run:

- A client sends an update of a prim only after it has read every frame of that prim
  stamped with a version it already knows (`GroupRead`), and nothing before its snapshot.
- No step of the list `Agreement.Strays` concerned the client and the prim since the start
  of the run, or since the client was last informed of the prim: by any frame with a
  transform of it, or because the last update it sent of it was applied.

The steps of that list are the ones at which the code leaves a client with something else
than the transform: a correction is dropped at a full priority queue; a correction, after a
rejection or a failed update, finds the prim inactive (a deactivation is sent) or below an
inactive prim (nothing is sent); another client changes the active state of a prim while an
update of it is in flight, or an update is sent before that change was read; the client's own
creation gets a path for which it has an update in flight; the client joins while the session
layer announces another transform than the prim has; a reload changes a prim that its notice
does not name, or names one that is not on the stage. `Agreement.OnlyStrays` proves that
nothing else does.

A client shows the root layer as it was when the client attached; the code sends the client
there right after attaching (source/controller/WebSocketController.cpp:108-114).

**Properties that are false of the code.** Each has a concrete input and an exact condition:

- Reading the group is necessary. `ProtocolGroups.HalfReadGroupDiverges` is a run in which a
  client updates a prim after half of a reload was read, and client and server differ with
  nothing left to happen, because all frames of one reload share a version and staleness is
  a strict comparison. `ProtocolGroups.GroupRuleExact` takes any state in which nothing is
  queued and the client has no open request, and an update that is then judged current and
  applied: the client ends with the server's state if and only if it had read its group, or
  an unread frame happens to bring the same value. What a client shows after any such
  update, whatever else is queued, is `ProtocolGroups.SentView`. The rule costs nothing when
  each version covers one prim (`ProtocolGroups.SingleFrameGroupsSuffice`).
- A failed update is not always corrected. `Divergence.BelowInactiveDiverges`: /A is
  deactivated, an update of /A/B fails, /A is restored, and the client shows its own /A/B for
  good. `Agreement.FailureExact` and `Agreement.CorrectionExact`: the client ends with the
  server's transform if and only if the prim is active and nothing above it is inactive, or
  the client shows that transform anyway.
- A stale update is not always answered by a newer transform.
  `Divergence.CrossedEditDiverges`: a client moves a prim while another deactivates it.
  `Agreement.ActiveExact`: all updates of the prim in flight are outdated by that, and the
  client ends with the server's transform if and only if it had asked for it.
- A client that joins is not always given the prim's transform.
  `Divergence.MixedJoinDiverges`: a matrix, then separate components, then a join.
  `Agreement.JoinerExact`: the joiner agrees if and only if what the session layer announces
  is what the prim has; `Agreement.JoinerSees`: over runs, for a prim the session moved, if
  and only if it is not a matrix with components authored later that narrow to something
  else.
- The frames of a join do not always give the server's scene. A prim that was set by a matrix and
  later by separate components is announced with the old matrix (`Join.MixedShapesWrong`),
  and a prim the file ships inactive and the session activated is announced as inactive
  (`Join.RevivedWrong`). `Join.JoinExact` proves that these two are the only cases.
- A written PNG file is not the image if three times the width exceeds 32 bits
  (`Png.WideRowWrong`) or the compressed stream is longer than 2^31 - 1 bytes
  (`Png.LongStreamWrong`). `Png.RoundTrip` proves for every size that these are the only
  cases.
- The size check of the PNG writer accepts a buffer that is too small if three times width
  times height exceeds 64 bits (`Png.WrappedSizeWrong`, with a buffer of 2 GB).
  `Scanlines.RowsInsideExactly` proves that every row then read lies in the buffer exactly
  if the product does not wrap.
- `LockedFor` is documented to be positive while a key is locked, and is 0 in the last
  second (`RateLimiter.LockedButZero`, `RateLimiter.LockedReport`).

## Model

| member | source | states |
|---|---|---|
| Mailbox.StepKeepsInv | source/session/BoundedMpscMailbox.h:193-340 | every step of any producer or of the consumer keeps: slot sequences say which position owns each slot, no two threads own the same slot, published slots hold the value reserved for them |
| Mailbox.StepRefines | source/session/BoundedMpscMailbox.h:193-340 | each step reserves at the tail, publishes one reserved cell, pops a published head, or changes nothing of an abstract FIFO |
| Mailbox.RunKeepsInv | source/session/BoundedMpscMailbox.h:111-126 | the invariant holds in every state of every run from a new mailbox |
| Mailbox.PopsWhatWasReserved | source/session/BoundedMpscMailbox.h:297-340 | the k-th successful pop returns the value of the producer that reserved position k: nothing lost, duplicated, overwritten or read early |
| Mailbox.ProducerOrderKept | source/session/BoundedMpscMailbox.h:193-290 | what a producer was told is accepted are its reservations, in its own order |
| Mailbox.FullIsExact | source/session/BoundedMpscMailbox.h:200-253 | TryEmplace refuses only if exactly Capacity reserved positions were unreleased when it read the slot |
| Mailbox.RefusedWhenFull | source/session/BoundedMpscMailbox.h:200-253 | every refusal in a run goes back to the same producer's last read of a slot, after which it did nothing else, and at that moment exactly Capacity reserved positions were unreleased |
| Mailbox.EmptyIsExact | source/session/BoundedMpscMailbox.h:297-312 | TryPop returns nothing only if, when it read the slot, nothing was reserved at the head or a producer that had reserved it had not published it |
| Mailbox.PublishedIsPopped | source/session/BoundedMpscMailbox.h:297-340 | whatever the producers do meanwhile, no TryPop returns nothing between the publication of the head and its pop |
| Mailbox.PopSucceeds | source/session/BoundedMpscMailbox.h:297-340 | in every state of every run with a published head the five steps of a TryPop are enabled one after the other and return the value reserved there |
| Mailbox.EmplaceSucceeds | source/session/BoundedMpscMailbox.h:193-290 | in every state of every run with a free slot the five steps of a TryEmplace are enabled one after the other and reserve and publish the value |
| Mailbox.ProducerGoesOn | source/session/BoundedMpscMailbox.h:200-290 | a producer inside TryEmplace can always take its next step, and that is the refusal exactly for a smaller sequence |
| Mailbox.ConsumerGoesOn | source/session/BoundedMpscMailbox.h:297-340 | the consumer can always take its next step |
| Mailbox.SizeBound | source/session/BoundedMpscMailbox.h:331-366 | enqueue - dequeue is at most Capacity, plus one only between the consumer's two stores |
| Mailbox.WrappedDifference | source/session/BoundedMpscMailbox.h:207-209 | the signed 64-bit difference takes the same branch as the true one while distances stay below 2^63 |
| SequentialMailbox.BoundedMpscMailbox.constructor | source/session/BoundedMpscMailbox.h:111-120 | a new mailbox is valid and empty |
| SequentialMailbox.BoundedMpscMailbox.TryEmplace | source/session/BoundedMpscMailbox.h:193-290 | appends exactly if fewer than Capacity values are held, else changes nothing |
| SequentialMailbox.BoundedMpscMailbox.TryPop | source/session/BoundedMpscMailbox.h:297-340 | takes the oldest value, or none from an empty mailbox |
| SequentialMailbox.BoundedMpscMailbox.ApproximateSize | source/session/BoundedMpscMailbox.h:353-366 | the number of values, when no other thread is active |
| SequentialMailbox.BoundedMpscMailbox.DestroyRemaining | source/session/BoundedMpscMailbox.h:400-430 | ends, and leaves the mailbox empty |
| Scheduler.StepKeepsInv | source/session/SessionCommandScheduler.cpp:38-183 | every atomic step keeps: the pending count is exact, the drain flag matches one token, queued work has a drain or a thread that will schedule one, commands are handled in order and once |
| Scheduler.StepUsesMailbox | source/session/SessionCommandScheduler.cpp:38-148 | each scheduler step does to each mailbox what `Mailbox.StepRefines` allows a mailbox step: reserve, publish, pop a published head, or nothing |
| Scheduler.RunKeepsInv | source/session/SessionCommandScheduler.cpp:38-183 | the same in every state of every run |
| Scheduler.NothingStranded | source/session/SessionCommandScheduler.cpp:100-191 | when no thread is inside and no drain is posted, both mailboxes are empty, the count is 0 and everything accepted was handled, once and in order |
| Scheduler.HandledInOrder | source/session/SessionCommandScheduler.cpp:133-175 | at any time the handler has seen a prefix of what each mailbox took |
| Scheduler.DrainsExclude | source/session/SessionCommandScheduler.cpp:100-175 | while one thread holds the drain token no other does and no drain is posted, so the mailboxes have one consumer |
| Scheduler.TokenExists | source/session/SessionCommandScheduler.cpp:100-175 | a set drain flag always stands for a posted drain or a thread that holds the token |
| Scheduler.NoHandlerAfterShutdown | source/session/SessionCommandScheduler.cpp:65-88 | once CloseAdmission and WaitIdle returned in a thread, no handler runs and no mailbox changes in the rest of the run |
| Scheduler.BatchBounded | source/session/SessionCommandScheduler.cpp:133-175 | in every run a drain stays within its bounds on commands and on retries |
| Scheduler.NeverStuck | source/session/SessionCommandScheduler.cpp:38-63 | a thread that must decrement finds a positive count, a reserved cell can be published |
| Scheduler.WaitIdleGoesOn | source/session/SessionCommandScheduler.cpp:65-88 | WaitIdle cannot deadlock: in every state of every run with a thread inside it, that thread can leave its loop or another thread can take a step that brings no new work, given an idle thread for a posted drain |
| SchedulerProgress.RefusedExactly | source/session/SessionCommandScheduler.cpp:38-63 | in every run a submission is refused only if the gate was closed at its check, or if the queued commands of its mailbox and the one in hand fill the capacity, which `Mailbox.RefusedWhenFull` proves of the mailbox |
| SchedulerProgress.QueuesBounded | source/session/SessionCommandScheduler.h:60-61 | no run has more commands queued than the capacity, or more than one of a mailbox in hand |
| SchedulerProgress.AcceptedIsHandled | source/session/SessionCommandScheduler.cpp:38-175 | in every state of every run with an open gate and room, what an idle thread submits is taken after everything taken before and can be brought to the handler without further submissions |
| SchedulerProgress.EverythingCanBeHandled | source/session/SessionCommandScheduler.cpp:100-183 | from every state of every run there is a continuation without submissions after which both mailboxes are empty and everything taken was handled in order, given an idle thread for a posted drain |
| SchedulerProgress.PriorityFirst | source/session/SessionCommandScheduler.cpp:139-140 | a thread tries for a normal command only after it found no published priority command in the same iteration |
| SchedulerProgress.EndsExactly | source/session/SessionCommandScheduler.cpp:133-165 | a batch ends only after 64 commands, with nothing pending, or after 16 retries in a row |
| SchedulerProgress.StartsOver | source/session/SessionCommandScheduler.cpp:135-170 | after an earlier command the batch goes on at the priority mailbox with all its retries |
| SchedulerProgress.HandsOn | source/session/SessionCommandScheduler.cpp:158-168 | the handler gets commands only from the thread that popped them, one at a time |
| Executor.RunKeepsInv | source/concurrency/WorkerExecutor.cpp:43-125 | every run keeps: tasks are taken in order, a taken task is held by one worker or finished, no wake-up is lost |
| Executor.StoppedRanAll | source/concurrency/WorkerExecutor.cpp:66-89 | when Stop has joined all workers, each accepted task ran exactly once |
| Executor.NoLostWakeUp | source/concurrency/WorkerExecutor.cpp:96-125 | when nothing moves any more, all accepted tasks ran, and a stopped executor has no sleeping worker |
| ExecutorProgress.PostTakes | source/concurrency/WorkerExecutor.cpp:43-64 | Post takes every task, at the end of the queue, unless Stop was called before |
| ExecutorProgress.StopCloses | source/concurrency/WorkerExecutor.cpp:66-78 | nothing is accepted after Stop |
| ExecutorProgress.AllCanRun | source/concurrency/WorkerExecutor.cpp:96-125 | from every state of every run all accepted tasks can be run to their end, without spurious wake-ups |
| ExecutorProgress.StopCanEnd | source/concurrency/WorkerExecutor.cpp:66-89 | a stopped executor can run what it accepted and end every worker, so Stop can return |
| Versions.CheckMatchesLog | source/session/SessionVersions.cpp:8-77 | for every history with non-decreasing versions and every sender, the constant-size book answers as a search of the whole history would |
| Versions.OwnRunNeverStale | source/session/SessionVersions.cpp:30-58 | changes of the sender itself never alter the verdict on its updates |
| Versions.OwnChangeKeepsNotice | source/session/SessionVersions.cpp:43-58 | a change leaves what its writer must have seen, for every prim, as it was |
| Versions.SessionVersions.CheckUpdate | source/session/SessionVersions.cpp:8-41 | the verdict of the book, which is the verdict of the recorded history |
| Versions.SessionVersions.RecordChange | source/session/SessionVersions.cpp:43-58 | the book stays the summary of the history with this change added |
| Versions.SessionVersions.RecordSent | source/session/SessionVersions.cpp:60-66 | the book stays the summary of the history with this frame added |
| Versions.SessionVersions.RecordCorrection | source/session/SessionVersions.cpp:68-77 | the book stays the summary of the history with this correction added |
| Convergence.StepKeepsInv | source/session/SessionManager.cpp:793-840 | every step of a client, an io thread or the consumer keeps the protocol invariant for all clients and prims |
| ProtocolTheorems.RunKeepsInv | source/session/SessionManager.cpp:684-840 | the invariant holds in every state of every run |
| Agreement.Converges | source/session/SessionManager.cpp:793-1313 | with nothing queued or in flight, every joined client shows the server's transform of every existing prim, if no step listed in `Strays` concerned the two since the start or since the client was last informed of the prim |
| Agreement.OnlyStrays | source/session/SessionManager.cpp:793-1287 | no other step of the protocol leaves a client with something else than the prim's transform |
| Agreement.InformedIsRight | source/session/SessionManager.cpp:1289-1326 | any step that sends a client a state of a prim, or applies the last update it sent of it, puts the two right again |
| Agreement.CorrectionExact | source/session/SessionManager.cpp:1240-1287 | after a correction the client ends with the server's transform if and only if the prim is active and readable, or it did anyway |
| Agreement.FailureExact | source/session/SessionManager.cpp:830-840 | after a client's last update of a prim failed, it ends with the server's transform if and only if the prim is active and readable, or the update asked for that transform |
| Agreement.ActiveExact | source/session/SessionManager.cpp:944-951 | a change of the active state outdates every update of the prim that others have in flight, and such a client ends with the server's transform if and only if it had asked for it |
| Agreement.JoinerExact | source/session/SessionManager.cpp:1032-1048 | a joiner ends with the server's transform of a prim of its snapshot if and only if the session layer announces what the prim has; for other prims the snapshot changes nothing |
| Agreement.JoinerSees | source/session/TransformDispatcher.cpp:185-243 | in every run over a layer that announced what it had, a joiner is given the transform of a moved prim if and only if it is not a matrix with later components that narrow to something else |
| Divergence.BelowInactiveDiverges | source/session/SessionManager.cpp:60-61 | a run in which an update below an inactive prim fails uncorrected, and client and server differ at rest with every prim active |
| Divergence.CrossedEditDiverges | source/session/SessionManager.cpp:946-951 | a run in which an update crosses a deactivation, and client and server differ at rest |
| Divergence.MixedJoinDiverges | source/session/TransformDispatcher.cpp:205-216 | a run in which a client joins after a matrix and then components were authored, and shows the matrix at rest |
| ProtocolTheorems.OneAckPerUpdate | source/controller/WebSocketController.cpp:185-218 | the unanswered requests of a client are its updates in flight plus its Acks in flight, one for one; at rest none is open |
| ProtocolTheorems.AppliedReachesAll | source/session/StageNoticeListener.cpp:246-251 | an applied update advances the version by one, every other client gets the new state with it, the sender its Ack with the same version |
| ProtocolTheorems.VersionsNeverGoDown | source/session/SessionManager.cpp:1226-1326 | the non-zero versions sent to a connection never decrease |
| ProtocolTheorems.NeverInvalidBase | source/session/SessionVersions.cpp:26-28 | a client whose base is the highest version it received is never answered InvalidBase |
| Agreement.StaleIsBacked | source/session/SessionVersions.cpp:30-40 | under the conditions of `Converges` a stale verdict means a frame of that prim with a newer version was sent to the client, and after its last update the frames sent lead to the server's state |
| ProtocolTheorems.CorrectionsCoalesced | source/session/SessionManager.cpp:684-704 | at most one correction per connection and prim is queued |
| ProtocolTheorems.DebtPaid | source/session/SessionManager.cpp:1167-1174 | a due correction ends only with the step that reads the prim and sends its state of that moment to the client, under a version of its own, with the step that drops it, or with the step that finds the prim unreadable and sends nothing |
| ProtocolTheorems.CorrectionFollows | source/session/SessionManager.cpp:684-704 | between a state in which a pair is due a correction and one in which it is not, some step sends it, drops it or finds the prim unreadable |
| ProtocolTheorems.CorrectionRefuses | source/session/SessionManager.cpp:1277-1286 | after a correction every update of that prim the client sent before is refused for good |
| ProtocolTheorems.CorrectionNeverMissed | source/controller/WebSocketController.cpp:203-217 | from a queue_full answer to any later state at rest, with the client attached, there is a step after the rejection that sends the state of that moment, drops the correction or finds the prim unreadable; once it was sent, updates sent before the rejection are refused |
| ProtocolTheorems.RejectionOwes | source/controller/WebSocketController.cpp:203-217 | a queue_full answer to an update makes the connection due a correction of that prim |
| ProtocolProgress.CanComeToRest | source/session/SessionManager.cpp:684-840 | from every state of every run the protocol can come to rest without anyone doing anything new, refusing a request or dropping a correction |
| ProtocolProgress.DebtCanBePaid | source/session/SessionManager.cpp:684-704 | every run can go on, without a refusal or a drop, to the step that sends a due correction or finds its prim unreadable |
| Answers.StepTells | source/session/SessionManager.cpp:793-957 | each step sends one Ack for each request of a client it answers and no other; an update's Ack is ok if and only if its value is in the session layer under a new version, an edit's if and only if the scene was edited or was as requested; any other Ack leaves layers and recorded versions as they were |
| Answers.AckTells | source/session/SessionManager.cpp:800-840 | every Ack in any channel of any run answers one request of that client and tells in this sense what became of it |
| Answers.AppliedExtends | source/session/SessionManager.cpp:813-836 | an applied update sends its origin the Ack alone and every other client the new state alone |
| Answers.FailedExtends | source/session/SessionManager.cpp:834-839 | an update that could not be applied sends its origin the Ack and then the correction, others nothing |
| Answers.EditedExtends | source/session/SessionManager.cpp:876-957 | a creation or active state is sent to every client, the origin included, and its Ack after it |
| Answers.FramesTell | source/session/SessionManager.cpp:959-1326 | whatever a step sends is what the server has after it, under the version it has then: transforms, creations, active states and snapshots |
| Answers.ReloadExactly | source/session/StageNoticeListener.cpp:183-212 | a reload takes one version if its notice names any prim, sends the state of exactly the named prims that the session does not override and that can be read, and outdates updates of exactly the named prims not overridden |
| Paths.AboveIsPrefix | source/session/SessionManager.cpp:59-61 | a path string is above another exactly if its names are a proper prefix of the other's, and different names give different strings |
| Paths.ReadableIsOnStage | source/session/SessionManager.cpp:59-61 | a prim can be read exactly if it is on the stage of the scene: it exists and all its proper ancestors are active |
| Paths.ActiveStateIsLocal | source/session/SessionManager.cpp:53-61 | a new active state changes the readability of no prim that is not below it, siblings with a longer name included |
| SessionServer.Session.SendAck | source/session/SessionManager.cpp:1226-1238 | the session after it is the protocol's after the consumer's Ack; nothing happens for a client that left |
| SessionServer.Session.constructor | source/session/SessionManager.cpp:463-480 | a new session, on any file and any saved session layer, is an initial state of the protocol |
| SessionServer.Session.FindPrim | source/session/SessionManager.cpp:59-61 | a prim is found exactly if it exists and nothing above it is inactive |
| SessionServer.Session.ReadTransform | source/session/SessionManager.cpp:63-105 | the composed transform, the session layer first, narrowed |
| SessionServer.Session.SendCorrection | source/session/SessionManager.cpp:1240-1287 | the session after it is the protocol's after a correction: the state under a version of its own, a deactivation for an inactive prim, nothing for a prim that cannot be read |
| SessionServer.Session.SendToOthers | source/session/SessionManager.cpp:1306-1312 | the loop gives the frame to exactly the clients not skipped and records it for each |
| SessionServer.Session.Broadcast | source/session/SessionManager.cpp:1289-1313 | the change is recorded and its resolved state sent to all but the origin, or only recorded if the prim cannot be read |
| SessionServer.Session.HandleTransform | source/session/SessionManager.cpp:793-840 | verdict, authoring, broadcast, Ack and correction together are the protocol's transform step |
| SessionServer.Session.Author | source/session/TransformDispatcher.cpp:58-110 | the new layer is that of the protocol's authoring: components leave a matrix where it is |
| SessionServer.Session.BroadcastToAll | source/session/SessionManager.cpp:1315-1326 | one version, recorded as a change and sent to every client, the origin included |
| SessionServer.Session.HandleScene | source/session/SessionManager.cpp:842-957 | a creation or active-state command is the protocol's step: an Ack alone if nothing changed, else broadcast and then Ack |
| SessionServer.Session.HandleJoin | source/session/SessionManager.cpp:959-1071 | the snapshot, read from the session layer without composing it, is sent and recorded as in the protocol's join step |
| SessionServer.Session.HandleReload | source/session/SessionManager.cpp:1101-1138 | a new root layer and its notice are the protocol's reload step, with one version if the notice names any prim |
| SessionServer.Session.BroadcastReload | source/session/StageNoticeListener.cpp:183-212 | the loop over the prims of the notice skips overridden prims, records the others and sends those that can be read |
| ProtocolGroups.SingleFrameGroupsSuffice | tools/ws_load.py:199-257 | if each reload notice covers at most one prim, every run of clients without the read-the-group rule satisfies the rule |
| ProtocolGroups.SentView | source/session/SessionVersions.cpp:30-40 | a client whose next update passes as current ends with that update if it has read its group, and with what it would have shown without it if not |
| ProtocolGroups.GroupRuleExact | source/session/SessionVersions.cpp:30-40 | sent with nothing queued and no open request, an update judged current and applied leaves its sender on the way to the server's state if and only if it had read its group, or an unread frame brings the same value |
| ProtocolGroups.HalfReadGroupDiverges | source/session/StageNoticeListener.cpp:183-210 | a run in which a half-read reload makes client and server differ with nothing left in flight |
| Names.DecimalRoundTrip | source/session/PrimDispatcher.cpp:106-106 | decimal suffixes can be read back, so different numbers give different suffixes |
| Names.CandidatesDiffer | source/session/PrimDispatcher.cpp:97-107 | no two tries produce the same name |
| Names.Pigeonhole | source/session/PrimDispatcher.cpp:97-107 | if the first n candidates are taken there are at least n siblings |
| Names.FreeIndex | source/session/PrimDispatcher.cpp:97-107 | the first candidate no sibling has is among the first \|siblings\| + 1 |
| Names.UniqueChildName | source/session/PrimDispatcher.cpp:90-108 | the loop ends within \|siblings\| + 1 look-ups with the first free name |
| Scene.TypeNames | source/session/PrimDispatcher.cpp:153-162 | type names and types correspond one to one, every other name is unknown |
| Scene.TargetOk | source/session/PrimDispatcher.cpp:234-289 | a creation names a prim that does not exist, deleted siblings included, under one that does; the other commands name one that exists |
| Scene.AuthorElsewhere | source/session/TransformDispatcher.cpp:58-110 | authoring at one prim, and the overs it adds above, change existence, type, activity and transform of no other prim |
| Scene.ExecuteKeepsInv | source/session/PrimDispatcher.cpp:206-372 | every command keeps: each spec has its ancestors, created prims are not in the root layer, op order and attributes match, no created gprim lies below a gprim |
| Scene.RunKeepsInv | source/session/PrimDispatcher.cpp:206-372 | the same after every run from an empty session layer |
| SceneLaws.ForeignKept | source/session/PrimDispatcher.cpp:132-145 | in every run no prim with an opinion from elsewhere gets a session deletion, and one the file ships active stays active |
| SceneLaws.DeleteUndo | source/session/PrimDispatcher.cpp:296-372 | in every run any active prim on the stage that is created or the file's own can be deleted, which hides it and what is below and nothing else, and undoing it restores the scene |
| SceneLaws.ForeignRefused | source/session/PrimDispatcher.cpp:345-355 | deleting a prim with an opinion from elsewhere is answered NotDeletable and changes nothing |
| SceneLaws.ActivationTaken | source/session/PrimDispatcher.cpp:343-370 | any inactive prim on the stage can be activated, wherever it comes from |
| SceneLaws.AskedTwice | source/session/PrimDispatcher.cpp:336-341 | asking for the active state a prim has is answered AlreadyInState and changes nothing, so asking twice is asking once |
| SceneLaws.CreateTaken | source/session/PrimDispatcher.cpp:234-294 | a creation is taken if and only if its parent is on the stage and active and, for a shape, no shape is at or above it; it adds one active prim of that type at the identity and nothing else |
| SceneLaws.ApplyTaken | source/session/TransformDispatcher.cpp:114-183 | a transform is taken if and only if the prim is on the stage and the file's attributes allow the shape; the prim then has it and nothing else changed |
| SceneLaws.AsInTheFile | source/session/SessionManager.cpp:463-472 | a prim of the file that no command targets is as the file has it |
| SceneLaws.NothingElse | source/session/PrimDispatcher.cpp:206-294 | every prim of the scene is in the file or was created by a command of the run |
| Snapshot.BroadcastTracks | source/session/SessionManager.cpp:842-957 | a command and its broadcast change the server's and a client's scene alike; a rejected command has no broadcast and no effect |
| Snapshot.LiveReplay | source/session/SessionManager.cpp:842-957 | a client that applies the broadcasts of any run shows the server's scene |
| StableSort.SortCorrect | source/session/SessionManager.cpp:1022-1023 | the sort is sorted, a rearrangement and stable |
| Join.JoinReplay | source/session/SessionManager.cpp:959-1063 | for any enumeration of the session layer every join frame applies, parents before children, and the result is the root file with the creations, announced transforms and deletions |
| Join.JoinExact | source/session/TransformDispatcher.cpp:185-243 | the result is the server's scene exactly if no prim has a matrix under a separate op order and none was activated against the file |
| Join.SnapshotReplay | source/session/SessionManager.cpp:959-1063 | after any run with one transform shape per prim on a file without inactive prims, a late joiner shows what the server holds and what a client shows that was there all the time |
| Join.MixedShapesWrong | source/session/TransformDispatcher.cpp:205-216 | a matrix followed by separate components: the joiner's scene differs |
| Join.RevivedWrong | source/session/SessionManager.cpp:1004-1005 | an inactive prim of the file activated by the session: the joiner's scene differs |
| SessionStage.LiveStage.HasGprimAncestor | source/session/PrimDispatcher.cpp:78-85 | the walk up finds a gprim exactly if the prim or an ancestor is one |
| SessionStage.LiveStage.CreatePrim | source/session/PrimDispatcher.cpp:206-294 | the new stage is that of the create command and keeps the invariant; the path returned is a new prim on the stage, none if rejected or if the layer refuses |
| SessionStage.LiveStage.ApplyTransform | source/session/TransformDispatcher.cpp:114-183 | the new stage is that of the transform command and keeps the invariant, the prim then has the transform; rejected for unknown prims, shapes that cannot be authored and updates without a transform |
| SessionStage.LiveStage.SetPrimActive | source/session/PrimDispatcher.cpp:296-372 | the new stage and status are those of the set-active command, every error status included, and the invariant is kept |
| SessionStage.LiveStage.Gather | source/session/SessionManager.cpp:997-1021 | one pass finds the creations and the deletions |
| SessionStage.LiveStage.Announce | source/session/SessionManager.cpp:1024-1024 | one creation frame per created prim, in the sorted order |
| SessionStage.LiveStage.Place | source/session/SessionManager.cpp:1032-1048 | one transform frame per spec with authored ops |
| SessionStage.LiveStage.JoinSnapshot | source/session/SessionManager.cpp:959-1063 | the frames built by the loops are the join frames, and replaying them gives the joined view |
| Commit.RemoveSoftDeletedPrims | source/session/StageCommitter.cpp:68-96 | for a list in any order the loop leaves exactly the prims with no listed prim at or above them, and the tree stays prefix-closed |
| Commit.CommitFolds | source/session/StageCommitter.cpp:52-96 | the committed file has exactly the prims of the scene with no session-deleted prim at or above them, each unchanged and with its parent |
| Commit.OrderIndependent | source/session/StageCommitter.cpp:75-95 | the order in which the deletions are collected does not matter |
| Commit.ShippedInactiveKept | source/session/StageCommitter.cpp:59-61 | a prim only the file ships inactive survives, still inactive |
| Commit.CommitKeepsVisible | source/session/StageCommitter.cpp:52-96 | the prims that are active with all their ancestors are the same before and after a commit |
| Checksums.TableFeeds | source/thumbnails/MiniPng.h:204-218 | feeding a byte bit by bit equals one table look-up and a shift |
| Checksums.CrcTable | source/thumbnails/MiniPng.h:204-214 | each entry is the register after the given number of one-bit steps from its index |
| Checksums.Crc32 | source/thumbnails/MiniPng.h:202-220 | on every byte string the table-driven loop gives the bit-serial CRC of section 3.4 of RFC 2083 |
| Checksums.IendCrc | source/thumbnails/MiniPng.h:202-220 | the CRC of the name of the last chunk is 0xAE426082, which every PNG file ends with |
| Checksums.Adler32 | source/thumbnails/MiniPng.h:190-200 | reducing after every byte gives the sums of section 2.2 of RFC 1950, without overflow of 32 bits |
| Checksums.OnesAdler | source/thumbnails/MiniPng.h:190-200 | a known checksum past the modulus |
| Zlib.ZlibWrapStored | source/thumbnails/MiniPng.h:145-188 | the loop writes header, full stored blocks, one final block and the checksum |
| Zlib.InflateBlocks | source/thumbnails/MiniPng.h:156-179 | a reader of stored blocks finds every block boundary, LEN and NLEN valid, and returns the data and what follows |
| Zlib.UnwrapWrap | source/thumbnails/MiniPng.h:145-188 | header check bits and Adler-32 are valid and the data is read back, for every input |
| Chunks.ReadWritten | source/thumbnails/MiniPng.h:125-140 | a written chunk of any size is read back with its CRC checked, exactly if its length fits 31 bits |
| Scanlines.FilterRows | source/thumbnails/MiniPng.h:86-92 | the loop writes each row after a filter byte 0, and leaves the buffer exactly if some row, at its 64-bit offset, is not inside |
| Scanlines.RowsInsideExactly | source/thumbnails/MiniPng.h:55-92 | in a buffer that passed the size check every row lies inside exactly if the size did not wrap |
| Scanlines.UnfilterFiltered | source/thumbnails/MiniPng.h:86-92 | the rows are read back, for every height and row length |
| Png.WriteChunk | source/thumbnails/MiniPng.h:125-140 | appends length, name, data and the CRC of name and data |
| Zlib.UnwrapLength | source/thumbnails/MiniPng.h:153-179 | no stream that a reader accepts for as many bytes is shorter than the writer's |
| Chunks.WrappedData | source/thumbnails/MiniPng.h:129-129 | with a wrapped length field a reader gets at least 12 bytes less than was written |
| Png.Write | source/thumbnails/MiniPng.h:45-114 | the two error cases, the case in which the wrapped size check lets the loop leave the buffer, and otherwise the encoded file |
| Png.FixedBytes | source/thumbnails/MiniPng.h:60-114 | every file has the signature, header, names, big-endian sizes and last chunk that sections 3.1 and 4.1 of RFC 2083 fix |
| Png.RoundTrip | source/thumbnails/MiniPng.h:45-200 | for every size the file decodes to width, height and pixels if and only if a row fits 32 bits and the stream 31 bits |
| Png.ShortRoundTrip | source/thumbnails/MiniPng.h:45-200 | up to a stream of 4 GB a file that does not decode to the image decodes to nothing |
| Png.WideRowWrong | source/thumbnails/MiniPng.h:91-91 | an image with one row of 0x55555556 pixels is not decodable |
| Png.LongStreamWrong | source/thumbnails/MiniPng.h:129-129 | an image with 2^29 rows of one pixel, or up to half as many more, is not decodable |
| Png.WrappedSizeWrong | source/thumbnails/MiniPng.h:55-55 | a 2 GB buffer passes the size check for 0xAAAAAAAB by 2^31 pixels, and the second row lies outside it |
| RateLimiter.SlidingWindowLimiter.MaybeSweep | source/middleware/RateLimiter.h:119-130 | at most once per window, evicts exactly the buckets two windows old |
| RateLimiter.SlidingWindowLimiter.Allow | source/middleware/RateLimiter.h:85-104 | the decision and the new buckets are those of one counted request after the sweep |
| RateLimiter.SweepsInvisible | source/middleware/RateLimiter.h:85-130 | for every trace with a clock that never runs back, the answers are those of a limiter without eviction |
| RateLimiter.TwiceTheQuota | source/middleware/RateLimiter.h:91-98 | in any half-open interval as long as the window at most twice the quota of a key is allowed |
| RateLimiter.LimiterBound | source/middleware/RateLimiter.h:85-130 | the same for the answers of the limiter with eviction, whenever it was created |
| RateLimiter.TwiceIsReached | source/middleware/RateLimiter.h:91-98 | two requests for which the bound is reached |
| RateLimiter.RetryAfterSuffices | source/middleware/RateLimiter.h:98-103 | a blocked key that waits for the suggested time is allowed again |
| LimiterLaws.ObservedIsNumber | source/middleware/RateLimiter.h:85-104 | for every ordered trace a request is told the number of requests of its key since a position from which on they lie in one window, and is refused exactly if that exceeds the quota |
| LimiterLaws.RefusedOnlyIfFull | source/middleware/RateLimiter.h:96-98 | a refused request has at least the quota of earlier requests of its key less than a window before it |
| LimiterLaws.RetryAfterNeeded | source/middleware/RateLimiter.h:98-103 | a second less than the suggested wait is not enough |
| RateLimiter.LoginThrottler.LockedFor | source/middleware/RateLimiter.h:173-181 | the whole seconds left, 0 for an unknown key |
| RateLimiter.LoginThrottler.MaybeSweep | source/middleware/RateLimiter.h:237-251 | at most once per window, evicts exactly the entries neither locked nor in a streak |
| RateLimiter.LoginThrottler.RecordFailure | source/middleware/RateLimiter.h:190-211 | the entry and the answer are those of one more failure after the sweep |
| RateLimiter.LoginThrottler.RecordSuccess | source/middleware/RateLimiter.h:218-222 | forgets the key and nothing else |
| RateLimiter.LoginSweepsInvisible | source/middleware/RateLimiter.h:173-251 | for every trace of checks, failures and successes the answers are those of a throttler without eviction |
| LimiterLaws.TripsExactly | source/middleware/RateLimiter.h:190-211 | for every trace a failure trips the lock exactly if it is at least failure number maxFailures of its streak, which begins where no earlier failure counted or the last streak was over, and lies in the window of its first failure |
| LimiterLaws.LockReported | source/middleware/RateLimiter.h:173-222 | for every trace a check is told the whole seconds left of the lockout since the last trip, or 0 if there is none since the last success |
| RateLimiter.LockedReport | source/middleware/RateLimiter.h:178-180 | the reported time is positive exactly if at least a whole second remains |
| RateLimiter.LockedButZero | source/middleware/RateLimiter.h:166-181 | a locked key for which 0 is reported |

## Left out

- C++ memory orders, placement new and cache-line layout: all shared accesses are sequentially consistent, and publication is one step.
- USD composition, change notices and file formats: layers are maps, an applied transform fires one notice for its own prim, and a reload comes with any root layer, any active states and any notice.
- Root layers shared by several sessions (source/session/SessionManager.h:22-27): one session per model.
- Queue capacities in `Protocol`: a push may be refused at any time, which covers every capacity; `SchedulerProgress.RefusedExactly` and `Mailbox.RefusedWhenFull` say when the real one refuses.
- SchedulerProgress.AcceptedIsHandled: says that the handler can be reached, not that a fair scheduler of threads must reach it; `Scheduler.NothingStranded` says that nothing is left when no thread moves any more.
- Agreement.Converges: is about transforms; existence and active state of prims on the clients are in `Snapshot.LiveReplay` and `Join.JoinExact`.
- Agreement.FailureExact: is about a client's last update of a prim it was not astray about; what a correction does in any other state is `Agreement.CorrectionExact`.
- A prim of the file that cannot have a transform is not in the model's root layer, and a created prim starts at the identity.
- The frames of one join are one frame in `Protocol`; their content and order are in `Join`. The load tool counts frames before SnapshotComplete without showing them, the model's client shows them at once.
- The io thread of a connection and the client are functions from state to state, one step each, because the theorems are about interleavings of many of them; a correction is several steps, since its mark, its push and its read are observed separately.
- Answers for a closing session and for a client that left: a detached client leaves the model.
- Rounding of rotation and scale to float: an arbitrary idempotent function in `Protocol`; the scene holds the values as authored.
- What a layer does when it refuses an edit: a refused creation or flag changes nothing.
- Root layers with `over` or `class` prims: every prim of the file is defined, so a creation adds only overs above it.
- Spellings of paths, names and types: a path or type that cannot be parsed is `None`.
- Png.Write: opening and writing the file; a buffer has fewer than 2^63 bytes, as any vector does, and reading outside it is the result `Overrun`.
- Filter types other than None, interlacing and compressed blocks in the PNG decoder: the writer never produces them.
- Wrap-around of the 64-bit request counter, of `server_seq` and of the name counter: they are unbounded.
- Executor.NoLostWakeUp: an empty task, which Post refuses, has no value in the model.
- HTTP controllers, authentication, configuration, logging, audit records, thumbnails other than the PNG bytes, the idle reaper and flush timing: no property of the kind proved here.
