# A model of csf, with proofs

csf is a C framework for network servers.  An event thread accepts connections and submits
requests; a staged pipeline of worker threads handles them; the event thread answers them.
Underneath lie a red-black tree, tail queues, a pool of memory blocks, a dictionary with an
ini-file printer and parser, and a send buffer per connection.  This project models that core
in Dafny and proves what it keeps and what it computes.

`dafny verify dfyconfig.toml` checks the whole project.

## What is modelled, and how

**The pipeline** (the modules whose names begin with `Pipeline`).  `PipelineState` is a labelled transition
system over unbounded numbers of stages, pipelines, workers, connections and requests.  A label
carries what a step does not decide itself: whether a trylock succeeded, which waiting threads a
signal woke (at least one if any waits), the verdict of a handler, the wish of a responder to
disconnect, the clock.  `submit_request` and the two halves of a turn of the loop over the final
queue, before and after the responder, are atomic, as the comments of the code accept.  The stored lengths wrap at 32 bits and the global counter at
64 bits.  `PipelineBooks`, `PipelineCount`, `PipelineFifo`, `PipelineDrain`, `PipelineThreads`,
`PipelineRefs` and `PipelineHops` prove one invariant each, step by step; `PipelineLaws` says field by field
what a step does to queues, counts and threads; `PipelineRuns`,
`PipelineAdmission`, `PipelineNamed` and `PipelineTrip` state the theorems about every run, and
`PipelineWitness`, `PipelineExit`, `PipelineDeserted` and `PipelineStall` give runs in which a promise is broken.
`PipelineLinks` carries every step out with the macros of `csf/include/queue.h` on the links of
`TailQueue`, and shows that the queues then hold the lists of the transition system.  `PipelineCode` is the imperative form: an object whose methods are
the critical sections of `csf/pipeline.c` and `csf/submit_request.c`, with the loops that sweep,
kick and answer.  Its validity says that its fields are what a recorded run of the transition
system leads to, so every theorem about runs is a theorem about the object.

**The wake-up of the event thread** (`Wakeup`) is modelled with one label per memory access, for
any number of workers: the done queue, its mutex, the unlocked flag `done_signalled`, the pipe.

**The red-black tree** (`RbShape`, `RbHeap`, `RbRepair`, `RbTree`).  Nodes live in a heap of
left, right, parent, colour and key; rotations and both fix-up loops rewrite them in place.  Each
pair of mirror-image branches is one branch with a side.  A ghost tree and a path to the current
node tie the pointers to a shape.

**The rest**: `TailQueue` (links and back-pointers refined to sequences), `Modules` and `Chains`
(from configured modules to stage chains), `DictSlots` and `Dictionary` (parallel arrays with a hash
filter refined to a map), the modules whose names begin with `Ini` (the printer and the parser, `sscanf` scansets
included, after section 7.19.6.2 of ISO C99), `TcpSend` (the send buffer), `Scatter` (the resumption
of `writev`), `MemPool` (the size classes) and `PoolTree` (their tree).

## Where the code does not do what it seems meant to do

Each of these is kept in the model as the code has it, with the exact condition.

- The loop check of `submit_next` hands a request to the done queue and then queues it again
  (`csf/pipeline.c:477-492`, `512-522`).  `DoubledIffLooped` says exactly when a request ends up in two
  places, `LoopCheckDoubles` gives a run that gets there, `InsertedTwice` and `RemovedElsewhere` say what
  that does to the links, and `NeverDoubled` and `BoundedHops` are about the form that returns after the
  hand-over (`cutoffReturns`).
- A stage named by a handler that does not answer `PIPELINE_CONTINUE` stays with the worker and is
  used for a later request.  `StaleTargetIff` says exactly when a plain `PIPELINE_CONTINUE` does not
  lead to the next stage, and `GoesAstray` gives a run in which it does not.
- Requests kicked or swept out are counted down twice (`csf/submit_request.c:84`, `104`;
  `csf/pipeline.c:338`).  `RequestConservation` says by how much the counter is off.  The queue size
  then bounds the requests waiting in every run without forced submits exactly under `AdmissionIff`;
  `OneTooMany` gives a run with one more for every other configuration.  `ExitLeavesKicked` says exactly
  when a worker may leave a pipeline that is not empty, and `LeavesEarly` gives a run.
- A submit whose second check fails after it has moved the overflow queue does not signal the stage
  (`csf/submit_request.c:46-70`).  `StrandsIff` says exactly which steps of a run leave requests with a stage
  none of whose threads is up: this one, the exit of the last thread up while something waits, and a kick or
  a turn that brings a request to a stage all of whose threads have left.  `StaysAttended` is about runs
  without the first two, where the third cannot come about; `Stalls` gives a run that ends in the first and
  `Deserted` one that ends in the third.
- A timeout callback can take the byte out of the pipe and not look at the done queue, and the
  descriptor for kick-out notices is read before the pipe exists (`csf/pipeline.c:324-333`, `805`).
  `NoLostWakeupIffSafe` says that no wake-up is lost exactly without these two.
- `tcp_writev` adds a new offset to a base it has already moved.  `AsWrittenIffCutOnce` gives the
  exact condition, `TwoCutsGoWrong` an input, `FixedIsCorrect` the form that uses the original vector.
  With more than one block and an empty last one the loop never ends (`NeverEnds`): after the last byte
  the search stops before the empty block (`EndsIffLastNotEmpty`).
- `iniparser_load` puts its count of errors back to zero with every entry it sets, so only a syntax
  error after the last entry is reported (`RejectedIff`); the comment promises more, and
  `ErrorIsForgotten` gives the files it forgets.
- `iniparser_load` joins a section and a key in a buffer of 1025 characters, and `iniparser_dump_ini` a
  section and a colon (`csf/confparser/iniparser.c:601`, `234`).  `OverrunIff` and `WrittenOnce` say exactly
  when the names do not fit, after which nothing is promised; `LongNameExample` gives a file.
- Not every value survives being printed and read.  `ReadBackIff` says exactly which do, `LostValues`
  names some that do not, and `RoundTripIff` exactly when a whole dictionary does.
- A dictionary without sections is printed as it is, and every key comes back with a colon in front
  (`csf/confparser/iniparser.c:221-228`, `601`).  `PlainReload` says exactly what comes back, and
  `PlainRoundTripIff` that only the empty one comes back as it was, although the text is said to be loadable.
- The module queue is said to be sorted by pipeline and stage.  `LexIffArrivesInOrder` and
  `ArrangedLexIff` say exactly when it is; `BackwardsArrival` shows three modules that end up out of order.
- The pool keeps sizes in an `int`.  `MemPool.Alloc` says exactly when a block has the size asked
  for, and `TooLarge` shows a request answered with a smaller one.  `OrderIff` says exactly when the
  comparison of the size tree is an order, and `RoundAndRound` names three sizes that it does not order.
- The number in a transaction id has 56 bits.  `TidsApart` and `TidsMeet` say until when ids do not repeat.

## Model

| member | source | states |
|---|---|---|
| Wakeup.NoLostWakeupIffSafe | csf/pipeline.c:213-249 | over all interleavings and numbers of workers: whenever the event thread is idle and the done queue is not empty a byte is in the pipe or a worker is about to write one, if and only if there are no timeout callbacks and notices go to the pipe |
| Wakeup.InvHolds | csf/pipeline.c:285-337 | the inductive invariant behind it, in every safe run: who owns the mutex, what backs a raised flag, and who watches a non-empty queue |
| Wakeup.TimeoutLoses | csf/pipeline.c:324-333 | with timeout callbacks a run ends with an idle event thread, a non-empty done queue and nobody to signal it |
| Wakeup.NoticeLoses | csf/submit_request.c:134-141 | a kick-out notice to the wrong descriptor raises the flag for good and loses the next wake-up |
| Wakeup.CallbackDrains | csf/pipeline.c:305-337 | from any reachable idle state with a byte in the pipe and the mutex free, the run can be extended by steps of the event thread alone, one callback, after which the done queue is empty and what was in it has been taken over in order |
| PipelineState.WrapSum | csf/submit_request.c:84-119 | unsigned counters may wrap before or after a sum |
| PipelineBooks.StepLengths | csf/pipeline.c:130-187 | every step keeps every `queue_len` and `tmp_queue_len` the length of its list, modulo 2^32 |
| PipelineBooks.SubmitPlaced | csf/submit_request.c:31-153 | a submit with its kick-out, sweep, concat or overflow leaves every live request in exactly one place |
| PipelineBooks.HandlePlaced | csf/pipeline.c:461-536 | a handler's turn leaves every live request in exactly one place unless the loop check strikes and falls through |
| PipelineBooks.EndPlaced | csf/pipeline.c:257-278 | answering a request takes it out of the only place it was in |
| PipelineCount.StepCounted | csf/pipeline.c:335-371 | every step keeps the counter equal to live requests less those ever kicked out and the one being answered, modulo 2^64 |
| PipelineFifo.StepFifo | csf/submit_request.c:46-150 | every step keeps the never-advanced requests of a first stage's queue followed by its overflow queue in submission order |
| PipelineFifo.StepActive | csf/pipeline.c:116-142 | every step keeps a pipeline on the active list, once, exactly while its overflow queue is not empty |
| PipelineDrain.NoLeak | csf/submit_request.c:63-70 | with nobody ever kicked out, the second full check cannot refuse a request the first one admitted |
| PipelineDrain.NothingWaits | csf/pipeline.c:594-607 | if no request waits, every stage queue, overflow queue, hand and the done queue is empty |
| PipelineThreads.StepHands | csf/pipeline.c:592-657 | a worker has one request in its hands exactly while it is busy |
| PipelineThreads.StepAttended | csf/pipeline.c:130-137 | every step keeps a thread awake at every stage whose queue is not empty, although a whole batch is moved with one signal, unless the second check fails on a batch it has just moved or a thread leaves while something waits |
| PipelineThreads.UnsignalledIff | csf/submit_request.c:46-70 | after a second check that fails on a batch it has just moved, every non-empty stage has a thread awake if and only if one of the first stage was awake before |
| PipelineThreads.ExitIff | csf/pipeline.c:594-607 | a thread that leaves strands its stage if and only if something is in its queue and no other thread of it is up |
| PipelineThreads.HandleIff | csf/pipeline.c:475-522 | a turn leaves every non-empty stage with a thread awake if and only if the request goes to no stage or to one with a thread that has not left |
| PipelineThreads.AttendedIff | csf/pipeline.c:592-607 | where threads leave only after the restart flag is set: a step leaves every non-empty stage with a thread awake if and only if it is neither of those two, nor a kick or a turn that brings a request to a stage all of whose threads have left |
| PipelineThreads.StepNoneLeft | csf/pipeline.c:594-607 | every step but an exit while something waits keeps that threads have left only when nothing waits any more |
| PipelineRefs.StepRefs | csf/include/server.h:24-32 | every step keeps each reference count equal to one for an open connection plus its requests, and every held state in memory |
| PipelineRefs.AnswerTouchesLive | csf/pipeline.c:340-366 | the done handler finds the connection state in memory, also after the responder's disconnect |
| PipelineRefs.AnswerFrees | csf/pipeline.c:257-278 | answering a request frees the connection state exactly when the connection is closed and nothing else holds it |
| PipelineHops.StepHops | csf/pipeline.c:475-492 | with the intended loop check, every step keeps a request's turns tied to its hops, and the hops bounded |
| PipelineHops.DoubledIffLooped | csf/pipeline.c:477-522 | after `submit_next` every request is in one place if and only if the loop check did not strike or returns; otherwise the request is in two |
| PipelineRuns.RunCore | csf/pipeline.c:565-684 | in every run in which no request was doubled, all bookkeeping invariants hold together |
| PipelineRuns.NeverDoubled | csf/pipeline.c:475-522 | with a loop check that returns, no run ever puts a request in two queues |
| PipelineRuns.RequestConservation | csf/submit_request.c:46-151 | in every run each accepted and uncleaned request is in exactly one queue or hand, the lengths are right, and the counter is the number waiting less the number ever kicked out, modulo 2^64; exactly the number waiting if nobody was |
| PipelineRuns.OverflowIsFifo | csf/submit_request.c:247-259 | in every run a pipeline's waiting line is in submission order, and the active list is exact |
| PipelineRuns.ReferenceCounts | csf/server.c:48-56 | in every run all reference counts are right and nothing freed is in use |
| PipelineRuns.ExitLeavesKicked | csf/pipeline.c:594-607 | in every run, when a worker may leave, as many requests wait as were ever kicked out modulo 2^64, and the pipeline is empty if and only if that is none |
| PipelineExit.LeavesEarly | csf/pipeline.c:594-607 | a run after which a worker may leave while an accepted request is still in the queue of its stage |
| PipelineRuns.GracefulDrain | csf/pipeline.c:538-557 | with nobody kicked out, a worker that may leave leaves an empty pipeline |
| PipelineRuns.GracefulOnlyShrinks | csf/submit_request.c:192-194 | once the restart flag is set it stays, and over the rest of any run the live requests only get fewer |
| PipelineAdmission.AdmissionIff | csf/submit_request.c:206-218 | every run without forced submits and without a doubled request keeps the number of waiting requests within the queue size if and only if there is no request timeout, the queue size is one, or there is no pipeline |
| PipelineAdmission.AdmissionWithoutSweeps | csf/submit_request.c:96-111 | in every run without forced submits and without the timeout flag no more requests wait than the queue size |
| PipelineAdmission.OneTooMany | csf/submit_request.c:96-119 | for every other configuration, a run without forced submits after which one request more waits than the queue size |
| PipelineRuns.WorkConservation | csf/pipeline.c:592-635 | in every run with nobody kicked out, no request or hold is leaked, every non-empty stage has a thread awake, and no thread left early |
| PipelineRuns.StaysAttended | csf/pipeline.c:592-635 | in every run without a doubled request, kicked requests or not, whose second check never fails on a batch just moved and in which no thread leaves early, every non-empty stage has a thread awake |
| PipelineRuns.StrandsIff | csf/pipeline.c:592-635 | that if and only if for the next step of every run without a doubled request, requests kicked out and threads gone or not |
| PipelineDeserted.Deserted | csf/pipeline.c:484-500 | a run that ends with a request in the queue of a stage whose only worker has left, the counter having come to zero while that request was being handled |
| PipelineStall.Stalls | csf/submit_request.c:46-70 | a run after which three requests are in the queue of a stage whose only worker sleeps and has not been signalled; they were submitted by a responder while the worker had the lock |
| PipelineRuns.BoundedHops | csf/pipeline.c:174-192 | with the intended loop check, in every run no request has more than MAX_STAGE_JUMP + 2 turns, whatever the handlers do |
| PipelineRuns.HandleMeasure | csf/pipeline.c:475-522 | in every run with the intended loop check, a turn ends in the done queue or lowers the hops left until the check, which never go below zero |
| PipelineRuns.DoneOnce | csf/pipeline.c:212-227 | in every run without a doubled request, one that has reached the done or final queue is never again in a stage, an overflow queue or a hand, and is in those two queues once until it is cleaned up |
| PipelineWitness.LoopCheckDoubles | csf/pipeline.c:512-522 | a run of the code as written after which one request is both in its stage queue and in the done queue |
| PipelineNamed.RegisterIff | csf/pipeline.c:484-490 | in every run a worker's register holds a stage if and only if that is the last one its handlers named and no CONTINUE of the worker has gone through since |
| PipelineNamed.StaleTargetIff | csf/pipeline.c:484-500 | in every run a CONTINUE that names no stage leads elsewhere than to the next stage if and only if some other stage is still named from before |
| PipelineNamed.GoesAstray | csf/pipeline_stage.c:86-98 | a run of two pipelines in which a request of the first, whose handler names nothing, goes to the stage of the second that was named for the request before |
| PipelineTrip.PlainRequestFollowsItsChain | csf/pipeline.c:475-500 | in every run without a doubled request, whatever becomes of the others: a request all of whose own turns answer CONTINUE with no stage named for its worker is at the stop of its chain it has earned, and when it is answered it was handled once at every stop, in order, up to the stop where the loop check cuts a long chain off; only if it was itself kicked out it is answered without any turn |
| PipelineTrip.PlainRequestsFollowTheirChain | csf/pipeline.c:475-500 | in every run of handlers that answer CONTINUE and name no stage, over chains of at most MAX_STAGE_JUMP + 1 stops, no request is ever doubled and all of them do that, those kicked out included |
| PipelineTrip.HandleTrack | csf/pipeline.c:484-500 | one such answer moves a request to the next stop of its chain, or from the last, or the one the loop check cuts off at, to the done queue |
| PipelineLaws.RunSound | csf/submit_request.c:30-267 | in every run, doubled requests or not, all stored lengths are right, the active list is exact, and numbers are given out once |
| PipelineLaws.SweepParts | csf/submit_request.c:96-111 | the sweep takes out exactly what has waited longer than the timeout, and leaves and takes out in order |
| PipelineLaws.SubmitLaw | csf/submit_request.c:30-267 | in every run a submit gets in if and only if the pipeline exists, no restart is on, it is forced or the counter is below the queue size, and with the lock it is forced or stage and overflow queue together are below it; then it is last in the first stage's queue behind the moved overflow queue, less the oldest if forced to kick out and those that waited too long, which are in the final queue in order, and the stage is signalled; without the lock it is last in the overflow queue; all else is as before |
| PipelineLaws.TurnEffects | csf/pipeline.c:460-536 | for every verdict, register and loop check: which one queue the request is appended to, its hops, the register, and which threads may be woken; all else is as before |
| PipelineLaws.VerdictLaw | csf/pipeline.c:460-536 | unless the loop check strikes, REQUEUE appends the request to the queue it came from, a verdict that ends it to the done queue, and CONTINUE to the stage named in the turn, and no other queue changes |
| PipelineLaws.TakeLaw | csf/pipeline.c:609-640 | a worker takes the oldest request of its stage and nothing else changes |
| PipelineLaws.KickLaw | csf/pipeline.c:115-142 | a kick moves the overflow queue behind the first stage's and signals that stage |
| PipelineLaws.AnswerLaw | csf/pipeline.c:354-375 | the end of an answer frees the first final request, and wakes everybody who waits if a restart is on and the counter is zero, and otherwise nobody |
| PipelineCode.Pipeline.SweepStage | csf/submit_request.c:96-111 | the loop that removes while iterating moves exactly the expired requests to the final queue, in order, and counts each once |
| PipelineCode.Pipeline.Room | csf/submit_request.c:77-111 | the kick-out of the oldest request and the sweep, as one change of state; the queue to kick from is never empty |
| PipelineCode.Pipeline.SendToPipeline | csf/submit_request.c:30-153 | concat, second check, room, insertion, signal or overflow: the return code and the whole new state |
| PipelineCode.Pipeline.SubmitRequest | csf/submit_request.c:168-267 | is one Submit step of the run; it is let in exactly under the two checks over the queues, and then where it stands and what it displaced; the transaction id in its 64 bits, or which refusal code for which reason |
| PipelineCode.TidsApart | csf/submit_request.c:238-244 | transaction ids are no error codes and do not repeat as long as the numbers fit 56 bits |
| PipelineCode.TidsMeet | csf/submit_request.c:238-244 | after that the ids of a pipeline are those of the next one |
| PipelineCode.Pipeline.SubmitNext | csf/pipeline.c:460-536 | for every verdict, named stage and loop check: the one queue the request is appended to, that the right stage is signalled, and that nothing else changes |
| PipelineCode.Pipeline.LookForRequest | csf/pipeline.c:592-640 | is one step of the run: wait exactly when the queue is empty, delay exactly when there is a delay and the first request is younger, else the first request is in hand and off the queue |
| PipelineCode.Pipeline.AfterWait | csf/pipeline.c:601-607 | the thread leaves exactly when a restart is on and the counter is zero |
| PipelineCode.Pipeline.Process | csf/pipeline.c:644-676 | the handler and what follows are one Handle step of the run, with the effect of its verdict and name |
| PipelineCode.Pipeline.KickRequestQueue | csf/pipeline.c:115-142 | the loop over the active list is a run of Kick steps, one for each overflow queue it could lock: those move behind the queues of their first stages, where a thread that waits is woken, all others are as before, and none was empty |
| PipelineCode.Pipeline.GetDoneRequests | csf/pipeline.c:285-297 | the done queue moves behind the final queue and its length is set to zero, or nothing changes; an empty one is not even locked |
| PipelineCode.Pipeline.AnswerFirst | csf/pipeline.c:336-375 | one turn of the loop is two steps of the run and cleans up the first final request and no other; everybody who waits is woken if that drained the pipeline for a restart, and otherwise nobody |
| PipelineCode.Pipeline.AnswerAll | csf/pipeline.c:335-377 | the loop answers, counts down and frees exactly the requests of the final queue; everybody who waits is woken if the counter came to zero on the way in a restart, and otherwise nobody |
| PipelineCode.Pipeline.DoneRequestsHandler | csf/pipeline.c:305-378 | what is answered and what is left in the done queue, for each kind of event; kicked-out requests wait until a done one comes; everybody who waits is woken if the counter came to zero in a restart, and otherwise only threads of the stages whose overflow queues were moved |
| PipelineCode.Pipeline.GracefulRestart | csf/worker.c:247-259 | the flag is set, the overflow queues are kicked, and with nothing left everybody who waits is woken, otherwise only threads of the stages kicked |
| PipelineCode.Pipeline.Invariants | csf/pipeline.c:565-684 | the object satisfies every invariant of every run |
| PipelineLinks.StepCarries | csf/submit_request.c:46-150 | every step of the pipeline that does not double a request is its sequence of queue macros, each of them allowed (nothing is inserted that is still linked), and they turn the lists of the state before into those of the state after |
| PipelineLinks.LooseIsFree | csf/pipeline.c:188-219 | a request on its way from one queue to another is linked into none |
| PipelineLinks.Replay | csf/pipeline.c:122-291 | the macros of any such run, carried out on the links from TAILQ_INIT on, leave every stage, overflow, done, final and active queue with exactly the list the run has for it |
| PipelineLinks.PerformAll | csf/include/queue.h:456-566 | a sequence of allowed macros on the links has the effect it has on the lists |
| PipelineLinks.ActivePipes.MarkedIff | csf/include/queue.h:569-576 | the entry of a pipeline looks empty if and only if the pipeline is not in the active queue |
| PipelineLinks.ActivePipes.Put | csf/submit_request.c:148-150 | the pipeline is appended unless it is there |
| PipelineLinks.ActivePipes.Drop | csf/submit_request.c:56-59 | the pipeline is taken out if it is there, and its entry looks empty again |
| RbShape.HeightBound | csf/include/tree.h:49-57 | the height of a red-black tree is at most 2 lg(n + 1) |
| RbShape.PlugRedBlack | csf/include/tree.h:402-444 | a whole tree is red-black from the colours and black heights of a subtree and of the path to it |
| RbHeap.RotateRep | csf/include/tree.h:338-376 | the pointer writes of a rotation yield the rotated shape, with right parent links |
| RbHeap.ReplaceRep | csf/include/tree.h:532-563 | the pointer writes that put the successor in a node's place yield the shape with it there |
| RbRepair.InsertZigzag | csf/include/tree.h:402-444 | the inner rotation of insertion keeps the invariant of the fix-up loop |
| RbRepair.InsertStraight | csf/include/tree.h:402-444 | the outer rotation of insertion keeps the invariant of the fix-up loop, now with a black parent |
| RbRepair.SiblingExists | csf/include/tree.h:446-522 | while a black is missing the sibling exists, so it is never a missing node that is looked at |
| RbRepair.RemoveFarNephew | csf/include/tree.h:446-522 | the last rotation of removal restores every black height and leaves no red node with a red parent |
| RbRepair.SucceededInorder | csf/include/tree.h:532-575 | taking out a node with two children through its successor removes exactly that node from the order |
| RbTree.RbTree.Rotate | csf/include/tree.h:338-376 | a rotation, either way, on the pointers |
| RbTree.RbTree.InsertColor | csf/include/tree.h:402-444 | the fix-up loop ends with a red-black tree and the same nodes in the same order |
| RbTree.RbTree.RemoveColor | csf/include/tree.h:446-522 | the fix-up loop ends with a red-black tree and the same nodes in the same order |
| RbTree.RbTree.Remove | csf/include/tree.h:524-589 | keeps search order, colours, black heights and links, and exactly the given node leaves the order and the set of nodes |
| RbTree.RbTree.Insert | csf/include/tree.h:592-620 | keeps the same, inserts exactly the given node into the order and the set of nodes, and returns the node with the key exactly on a duplicate, leaving all as it was |
| RbTree.RbTree.Find | csf/include/tree.h:622-638 | the node with the key, or NULL exactly when no node has it |
| RbTree.RbTree.FindNext | csf/include/tree.h:640-659 | the node with the least key that is at least the one asked for |
| RbTree.RbTree.Next | csf/include/tree.h:661-681 | the next node in order |
| RbTree.RbTree.MinMax | csf/include/tree.h:683-696 | the first or the last node in order |
| RbTree.RbTree.Foreach | csf/include/tree.h:709-712 | all nodes, in order |
| RbTree.RbTree.HeightOfValid | csf/include/tree.h:49-57 | the height bound holds after any inserts and removes |
| TailQueue.Queues.InsertTail | csf/include/queue.h:535-543 | appends to the sequence of one queue, and keeps every queue |
| TailQueue.Queues.Concat | csf/include/queue.h:456-465 | appends one sequence to another and empties it, and keeps every queue |
| TailQueue.Queues.InsertBefore | csf/include/queue.h:512-520 | inserts before an element without knowing the head |
| TailQueue.Queues.Remove | csf/include/queue.h:553-566 | takes out one element |
| TailQueue.Queues.Last | csf/include/queue.h:545-546 | the double indirection yields the last element, or NULL for an empty queue |
| TailQueue.Queues.RemoveEach | csf/include/queue.h:476-479 | iteration that removes the current element visits every element of the original sequence |
| TailQueue.Queues.MoveEach | csf/submit_request.c:98-110 | iteration that moves elements into another queue, overwriting the link of the current one, visits every element of the original sequence and moves exactly those to be moved, in order |
| TailQueue.Queues.MarkedIsFree | csf/include/queue.h:569-576 | an entry that passes for unused is in no queue |
| TailQueue.Queues.EntryInit | csf/include/queue.h:569-576 | marks an entry that is in no queue as unused, and changes no queue and no other mark |
| TailQueue.InsertedTwice | csf/pipeline.c:477-496 | after appending an element of one queue to another, as the loop check that falls through does, a walk of the first queue ends at it and loses exactly what is behind it |
| TailQueue.RemovedElsewhere | csf/include/queue.h:553-566 | removing the element from the first queue then takes it out of the second: a walk of the first still ends with it, a walk of the second does not meet it, and the end of the first is said to be in the second |
| Modules.ModuleQueue.Insert | csf/module.c:209-234 | the scan with its flag inserts at the specified place |
| Modules.InsertKeeps | csf/module.c:209-234 | the insertion loses nothing and keeps the queue sorted by pipeline |
| Modules.PlaceIff | csf/module.c:214-230 | the new module goes behind exactly those of earlier pipelines and of its own, but for one of a later stage at the very end |
| Modules.LexIffArrivesInOrder | csf/module.c:201-234 | a queue in order of pipeline and stage stays so if and only if no module of the pipeline but the very last of the queue has a later stage |
| Modules.BackwardsArrival | csf/module.c:201-234 | stages 3, 2 and 1 of one pipeline, arriving in this order, end up out of order |
| Modules.ArrangedIsPermutation | csf/module.c:209-234 | whatever modules arrive, the queue is a permutation of them, sorted by pipeline |
| Modules.ArrangedLexIff | csf/module.c:201-234 | the final queue is in order of pipeline and stage if and only if every module arrived in order |
| Modules.StageByStageIsSorted | csf/module.c:201-208 | it is if each pipeline's modules arrive stage by stage |
| Chains.PipelineInit | csf/pipeline.c:889-954 | the loop records the first stage of every pipeline and links each stage to the next of its pipeline |
| Chains.ChainIsPipeline | csf/pipeline.c:899-931 | following the links from a pipeline's first stage visits exactly its modules, in queue order |
| Chains.ChainsPartition | csf/pipeline.c:899-931 | different pipelines share no stage, and every stage is on its pipeline's chain |
| Chains.NextStop | csf/pipeline.c:914-931 | each stop of a chain links to the next, and the last to none |
| DictSlots.FreeSlot | csf/confparser/dictionary.c:268-274 | the search for a free slot succeeds if and only if not all slots are in use |
| DictSlots.PutIsUpdate | csf/confparser/dictionary.c:227-282 | setting a key updates the map, whether it was there, a slot was free or the arrays doubled |
| DictSlots.DropIsRemove | csf/confparser/dictionary.c:295-330 | unsetting a key removes it from the map |
| DictSlots.PutPlace | csf/confparser/dictionary.c:240-282 | setting changes one slot, the first with the key or else the first empty one, and doubles the slots exactly if there is neither |
| DictSlots.DropPlace | csf/confparser/dictionary.c:295-330 | unsetting empties the first slot with the key and no other |
| DictSlots.FindIsLookup | csf/confparser/dictionary.c:181-199 | the linear search finds a key exactly when the map has it, with its value |
| DictSlots.RefinesMap | csf/confparser/dictionary.c:181-330 | over any run of sets and unsets keys stay unique, the slots are the map, and the count is its size |
| Dictionary.HashOf | csf/confparser/dictionary.c:94-110 | the loop computes the 32-bit hash, with bytes above 127 sign-extended |
| Dictionary.Dictionary.constructor | csf/confparser/dictionary.c:123-138 | an empty map with at least DICTMINSZ slots |
| Dictionary.Dictionary.Search | csf/confparser/dictionary.c:186-197 | comparing hashes first never hides a match |
| Dictionary.Dictionary.Get | csf/confparser/dictionary.c:181-199 | lookup in the map, or the default |
| Dictionary.Dictionary.Grow | csf/confparser/dictionary.c:44-55 | doubling keeps every slot and adds free ones |
| Dictionary.Dictionary.Set | csf/confparser/dictionary.c:227-282 | update of the map, or -1 for a missing key; keeps hashes, count and uniqueness |
| Dictionary.Dictionary.Unset | csf/confparser/dictionary.c:295-330 | removal from the map; keeps hashes, count and uniqueness |
| IniText.StripIsTrimmed | csf/confparser/iniparser.c:79-96 | stripping yields a trimmed string, and changes exactly those that are not |
| IniText.LowerIs | csf/confparser/iniparser.c:51-64 | no capital is left, every capital has become its small letter, and nothing else has changed |
| IniLine.ParseKeyLine | csf/confparser/iniparser.c:484-508 | what the five formats make of any line with a key and an equals sign |
| IniLine.PrintedLineParses | csf/confparser/iniparser.c:236-241 | a printed entry is read as its key and its value as it reads back |
| IniLine.KeyLineLayout | csf/confparser/iniparser.c:237-241 | a printed entry is the key, blanks up to column 30, the equals sign between blanks, and the value |
| IniLine.SectionLineParses | csf/confparser/iniparser.c:477-483 | a printed heading is read as its section |
| IniLine.ReadBackIff | csf/confparser/iniparser.c:484-498 | a value reads back as itself if and only if it is trimmed, has no comment character, is not an empty pair of quotes and does not begin a quotation |
| IniLine.LostValues | csf/confparser/iniparser.c:484-498 | values that read back as others |
| IniKinds.LineKinds | csf/confparser/iniparser.c:466-514 | for every line: empty iff all blanks, a comment iff its first character that is no blank is a hash, a heading iff its first and last are brackets, an error iff it is none of these and has no equals sign or begins with one, else an entry |
| IniKinds.HeadingName | csf/confparser/iniparser.c:477-483 | the name of any heading is what is before the first closing bracket, trimmed and in lower case, or the one before if that is nothing |
| IniKinds.EntryIs | csf/confparser/iniparser.c:484-511 | the key of any entry is what is before the first equals sign, trimmed and in lower case, and its value is read from the rest, trimmed |
| IniKinds.QuotedValue | csf/confparser/iniparser.c:484-498 | what stands in either kind of quotes is the value, trimmed, comment characters included |
| IniKinds.PlainValue | csf/confparser/iniparser.c:486-498 | without a quotation the value is what is before the first semicolon or hash, trimmed, and empty quotes are nothing |
| IniKinds.NothingChanges | csf/confparser/iniparser.c:590-593 | a comment or blank line that is read whole and not continued may be put in or taken out after any complete lines without changing what any file loads |
| IniKinds.ContinuedLine | csf/confparser/iniparser.c:579-589 | a line with a backslash at its end and the next one load as the two written as one, as long as they fit the buffer |
| IniFile.LoadJoin | csf/confparser/iniparser.c:564-622 | a file of lines that fit the buffer and are not continued is read line by line |
| IniFile.RejectedIff | csf/confparser/iniparser.c:564-626 | any file whose joined names fit is rejected if and only if a line, with those it continues, does not end within the buffer, the last one does not end at all, or the last line that is not empty or a comment is a syntax error |
| IniFile.OverrunIff | csf/confparser/iniparser.c:599-602 | for any file: the buffer of the joined name is overrun if and only if on some line that is read the section, a colon and the key are longer than 1024 characters |
| IniFile.LoadedIs | csf/confparser/iniparser.c:590-603 | what any other file loads: the settings of its lines, continued ones as one, in order |
| IniFile.SplitLines | csf/confparser/iniparser.c:564-577 | every file is some lines and a rest without the end of a line, so the three are about every file |
| IniFile.LongName | csf/confparser/iniparser.c:599-602 | a heading and an entry overrun the buffer if and only if their names are together too long |
| IniFile.LongNameExample | csf/confparser/iniparser.c:599-602 | a section of 600 letters with a key of 600 letters does |
| IniFile.ErrorIsForgotten | csf/confparser/iniparser.c:590-626 | a file of one line with a syntax error is rejected, and the same line followed by any section heading is accepted |
| IniFile.ErrorForgottenExample | csf/confparser/iniparser.c:590-626 | a file of the line x is rejected, and of x and [a] is not |
| IniFile.NoEqualsIsWrong | csf/confparser/iniparser.c:477-508 | a trimmed line that has no equals sign and does not begin a heading or a comment is a syntax error |
| IniRoundTrip.DumpThenLoad | csf/confparser/iniparser.c:210-248 | loading a printed dictionary gives exactly its sections and their entries, each value as it reads back, if and only if the whole name of every printed entry has at most 1024 characters; otherwise the buffer is overrun |
| IniRoundTrip.MissingValue | csf/confparser/iniparser.c:237-241 | an entry without a value is printed with nothing behind the equals sign and comes back empty |
| IniRoundTrip.RoundTripIff | csf/confparser/iniparser.c:530-629 | it gives the same map if and only if every value survives, every entry's section is there, exactly sections lack a value, and every whole name has at most 1024 characters |
| IniRoundTrip.WrittenOnce | csf/confparser/iniparser.c:229-246 | a text is printed if and only if every section's name has at most 1023 characters; it is its headings and entry lines, joined; every section that is to be printed has its heading once, every entry of such a section its line once, in the order of the slots, and there is nothing else |
| IniPlain.PlainWritten | csf/confparser/iniparser.c:220-228 | without sections the text is one line with key and value for every entry, once, in the order of the slots |
| IniPlain.PlainReload | csf/confparser/iniparser.c:220-228 | loading it gives every entry with a colon in front of its key, its value as it reads back, and nothing else |
| IniPlain.PlainRoundTripIff | csf/confparser/iniparser.c:206-228 | so it gives the same map if and only if that is empty |
| IniCode.StrStrip | csf/confparser/iniparser.c:79-96 | the two loops strip |
| IniCode.StrLwc | csf/confparser/iniparser.c:51-64 | the loop lowers, up to the buffer's end |
| IniCode.GetNSec | csf/confparser/iniparser.c:116-131 | the number of sections |
| IniCode.GetSecName | csf/confparser/iniparser.c:147-167 | the n-th section in slot order, or none |
| IniCode.DumpIni | csf/confparser/iniparser.c:210-248 | the text printed for the dictionary object, or none exactly when the name of a section does not fit its buffer |
| IniCode.Gets | csf/confparser/iniparser.c:564-577 | a line is read whole exactly when its end comes within the buffer |
| IniCode.LoadIni | csf/confparser/iniparser.c:530-629 | the dictionary object loaded, none exactly when the file is rejected, or that a joined name did not fit |
| IniCode.SaveAndLoad | csf/confparser/iniparser.c:210-629 | printing and loading the object gives the same map if and only if it is faithful, and overruns the buffer if and only if some whole name is too long |
| TcpSend.Connection.SendBack | csf/tcp.c:483-542 | exactly when a message is accepted, how much of it is on the wire and in the buffer; wire and buffer together stay the stream |
| TcpSend.Connection.Flush | csf/tcp.c:436-480 | of the buffered bytes as many go out, in order, as the socket takes before it would block or fails; the loop comes to its end if and only if that was all or the socket failed first, and what is left is then lost, and otherwise stays buffered; wire and buffer together stay the stream |
| TcpSend.Connection.NothingLost | csf/tcp.c:436-542 | without a hard error in a flush, wire and buffer are the accepted messages in order with the written parts of rejected ones |
| TcpSend.NothingDropped | csf/tcp.c:460-467 | without such an error the stream is every accepted message and written part, in order |
| Scatter.SearchFinds | csf/tcp.c:212-223 | the search ends at the byte it looks for, or past the end |
| Scatter.SearchIsUnique | csf/tcp.c:207-223 | for non-empty blocks it yields the one block and offset of the byte |
| Scatter.EndsIffLastNotEmpty | csf/tcp.c:161-223 | with everything written the search goes past the last block if and only if there is one block or the last one is not empty |
| Scatter.NeverEnds | csf/tcp.c:161-223 | with more than one block and an empty last one, every state the loop reaches goes on |
| Scatter.NeverTooMany | csf/tcp.c:161-223 | in every state the loop reaches, as written or not, no more bytes went out than there are, and at its end as many |
| Scatter.WriteTakes | csf/tcp.c:170-206 | as written or not, a write takes all that the socket is ready for and the vector from the current base on offers, and no other answer moves anything |
| Scatter.FixedIsCorrect | csf/tcp.c:161-168 | with the offset taken from the original vector, every schedule of partial writes of any blocks, empty ones included, sends a prefix of the concatenation and goes on where it stopped |
| Scatter.FixedTakes | csf/tcp.c:161-223 | and as many bytes have gone out as the socket was ready for, up to all of them |
| Scatter.AsWrittenIffCutOnce | csf/tcp.c:161-223 | for every vector, empty blocks or not, as written: what went out is a prefix of the concatenation if and only if no bytes followed a second cut in one block |
| Scatter.TwoCutsGoWrong | csf/tcp.c:161-168 | three writes of one byte from a block of four send a wrong byte |
| Scatter.EndSendsAll | csf/tcp.c:225-226 | when the loop ends, all blocks have gone out in order, as written if no bytes followed a second cut in one block |
| Scatter.Ordinals | csf/tcp.c:147-159 | the prefix sums |
| Scatter.FindPlace | csf/tcp.c:207-223 | the loop computes the search |
| Scatter.StopsOnce | csf/tcp.c:170-226 | a schedule of answers has at most one place where the loop stops, and one result there |
| Scatter.Writev | csf/tcp.c:123-226 | for any schedule of partial writes, retries, interrupts and errors: after which answer the call stops and with which result, a vector moved past its block being refused; the wire holds exactly what those answers made writev take; with the offset from the original vector that is the concatenation as far as the socket was ready for it, and as written a prefix of it if and only if no bytes followed a second cut in one block; a finished call has sent as many bytes as there are, and all of them if nothing was wrong; with an empty last block none finishes |
| MemPool.SizeCmpIsOrder | csf/mempool.c:48-59 | the comparison is that of the sizes if and only if their difference fits an int; so for positive sizes |
| MemPool.OrderIff | csf/mempool.c:48-59 | the comparison orders some sizes if and only if they are all in one half turn of the 32-bit circle from one of them up |
| MemPool.RoundAndRound | csf/mempool.c:48-59 | three sizes each of which comes before the next |
| MemPool.MemPool.ClassesAreOrdered | csf/mempool.c:48-59 | as long as only sizes that fit an int were asked for, the tree's comparison of any two classes is that of their sizes |
| PoolTree.SizeTree.Lookup | csf/mempool.c:126-128 | with all sizes in one half turn, size_cmp orders them as the keys of the red-black tree, and the search finds the class of a size exactly when there is one |
| PoolTree.SizeTree.Store | csf/mempool.c:130-141 | and changing the class found, or inserting a new one, is the update of the map |
| MemPool.MemPool.Init | csf/mempool.c:70-80 | the bounds in force, cut down to unsigned ints, at any time; the one is not below the other if the numbers fit |
| MemPool.MemPool.InitBlock | csf/mempool.c:82-108 | so many new blocks of one size, each once in the list |
| MemPool.MemPool.Alloc | csf/mempool.c:110-167 | keeps every class counted, bounded, of one size and apart from what is lent; lends the newest pooled block, or a new one besides a new stock, and leaves every other class and block as it was; its size is the one asked for exactly when that fits an int or the block is new |
| MemPool.MemPool.Drain | csf/mempool.c:192-201 | the loop gives the newest blocks back until the list is at its bound, and keeps the others |
| MemPool.MemPool.Free | csf/mempool.c:169-210 | keeps the same; the block is pooled, or freed with exactly those the drain takes down to the bound, so the error messages are not reached |
| MemPool.TooLarge | csf/mempool.c:127-160 | a request for 2^32 + 8 bytes is answered with a block of 8 |

## Left out

- Some steps of `PipelineState` are looser than the code, so every theorem about runs covers more runs than the code has: `Drain` and `ServeBegin` may happen whenever there is something to move or to answer, while the code needs a done request first; a submit may fail its trylock although nobody is at the mutex; and a submit may fall between two turns of the loop over the final queue.  The runs given as examples do without these.
- PipelineRuns.RequestConservation: is about runs in which the loop check never put a request in two queues; afterwards the code frees a request that is still queued.
- PipelineCode.Pipeline.SubmitRequest: fewer than 2^64 requests are live at a time.
- PipelineCode.Pipeline.AnswerFirst: a responder asks to disconnect at most once per connection, and a request has a connection.
- PipelineCode.Pipeline.DoneRequestsHandler: no worker step falls between its parts; the runs of the transition system interleave them freely.
- PipelineLinks.Replay: is about runs in which no request was put in two queues, and pipelines with a first stage of their own; `TailQueue.InsertedTwice` says what a second insertion does to the links.
- MemPool.MemPool.Alloc: the classes are a map, which `PoolTree.SizeTree` implements while all sizes asked for are in one half turn; what the tree finds when its comparison is no order is not modelled.
- IniRoundTrip.DumpThenLoad: names are lower case, trimmed and fit a line each, and no value has a newline or ends in a backslash; the lines then read one by one.
- IniRoundTrip.RoundTripIff: is about the same dictionaries.
- IniCode.SaveAndLoad: is about the same dictionaries.
- IniPlain.PlainReload: is about dictionaries whose keys and printed lines meet the same conditions.
- IniPlain.PlainRoundTripIff: is about the same ones.
- Scatter.Writev: contents of the blocks; bytes are named by their addresses.
- Allocation failures, errors of mutex and condition calls, weak memory, dlopen, the insides of handlers and responders.
- The comparison function of the tree: keys are integers.
- The splay tree and the singly linked and plain lists of the headers.
- `tcp_write`, `tcp_sendfile`, accepting and reading: platform calls without a stream property.
- `iniparser_load_mem`, the getters and their number conversions, `dictionary_dump`: they add only easy members.
- A blank line makes `iniparser_load` read one character before its buffer; the model takes it as no continuation.
- A module with a pipeline number past the limit makes `mod_config_init` follow a null pointer; the model has no such module.
- Logging, monitoring, UDP, configuration, privileges, signals other than HUP, and process control.
