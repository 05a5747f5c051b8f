# uvpp: lifetimes, delivery and cleanup, verified

uvpp wraps libuv in C++20 coroutine owners. Its hard part is a set of small reentrant state
machines: any `resume()` or callback may call back into the same object, drop its owner, or
complete sibling tasks before it returns. The library answers with ordering rules (detach before
delivering, claim before touching, count before raising stop), generation tags, depth counters and
phase machines. This project models those machines and proves what they are for, over every run.

Each module is one machine or one owner:

| module | models |
|---|---|
| `LoopPosting` | the cross-thread posting queue, its budgeted drains, coalesced wakeups and close protocol |
| `TaskScope` | fail-fast structured concurrency with stop completing siblings synchronously |
| `Cancellation` | the intrusive registration list that stop callbacks change while it is walked |
| `SpawnHandle` | a root task's shared state, its joiners, completion baton and failure routing |
| `AsyncClose` | the lifetime of an asynchronously closed owner: close, release, deliver, delete |
| `ProcessLifetime` | a child process, whose native close has to wait for its exit |
| `AcceptOperation` | an accept with its provisional child, cancellation and the listener's close |
| `ResourceScope` | two-phase, retryable, suspendable cleanup of adopted resources |
| `Subscription` | callback loans across the allocator and read trampolines of streams and UDP handles |
| `UdpSendBatch` | the pointer cache over a reallocating flat buffer of datagrams |
| `ReceiveHandle` | receiving bytes and TCP handles over a pipe |
| `FsEventSource` | the coalescing of filesystem notifications between two `next()` calls |
| `HandleExport` | the pin on a TCP owner whose handle is being written to a pipe |
| `FileClose` | a file's transfer slots and the joined native close |

**How the models are built.** A `State` holds the fields of the source object, the part of libuv
and of the call stack it depends on, and histories (what was accepted, resumed, closed, deleted).
`Step` takes one event: a public call, a native callback, a lock region, or the end of a library
frame. An event that cannot happen in a state leaves it unchanged, so a theorem for every
`seq<Event>` covers every interleaving and every reentrant call. Beside it stands a class with the
source's own fields and methods. Its ghost field `m` is the `State`, `Valid()` ties the two
together, and each method is proved to perform exactly the event or the run of events it stands
for; user code that runs inside a method is a parameter, a script of calls that may be anything.

**What is assumed of the surroundings.** A `uv_close` callback comes once and later;
`uv_async_send` sets a flag that coalesces; native callbacks of one handle do not nest; libuv's
answers (status codes, whether memory is available, whether a stop registration succeeds) are
parameters of the events. A continuation is an identifier and resuming it is an entry in a
history. Threads take part only through the lock regions of the posting queue.

**Where the code falls short of the law, and exactly when.** `process_state::release_owner()` deletes
a closed state without asking whether its close waiters are still being resumed, although the other
owners ask. A task that awaits the close of a local process and then leaves its scope makes the code
delete the state twice: `ProcessLifetime.ReleaseAfterAwaitedClose` gives the run, and
`ProcessLifetime.DeletedOnceIffNotReleasedDuringDelivery` proves that a release during delivery is
the only way. `task_scope` delays its joiner until the
outermost completion callback has unwound, but a `request_stop()` called directly on the scope is
not counted by that guard. `TaskScope.DirectStopIsUnsafeIff` proves when such a call can hand the
joiner out, and have the scope destroyed, before it returns: exactly when it is the first stop, it
is made outside every frame of the scope, and some child is active.
`TaskScope.DirectStopDestroysItsScope` gives the smallest run. `spawn_handle::release()` keeps a
reference while its stop walks the registrations of the shared state, but a `request_stop()` called
on the handle does not. `SpawnHandle.HandleStopIsUnsafeIff` proves when such a call can have the
state destroyed before it returns: exactly when it is the first stop, the root has not completed,
and neither the root nor a task it awaits is the caller or below it. `SpawnHandle.JoinerDropsTheHandleUnderTheStop`
gives a run.

## Model

| member | source | states |
|---|---|---|
| LoopPosting.AcceptedWorkIsConserved | include/uvpp/loop_posting.hpp:158-198 | in every interleaving, also with posts that land between the clearing of the wakeup flag and the drain that it starts, the accepted posts are the executed ones, then the rest of the running batch, then the queue, in order of acceptance; once native close is issued all of them have run exactly once |
| LoopPosting.NoWakeupIsLost | include/uvpp/loop_posting.hpp:186-214 | the flag is cleared before a drain takes the lock, and still, whenever work is queued and the endpoint is open or draining, a drain is under way or a wakeup is certain to start one |
| LoopPosting.PostIsAnsweredByTheHistory | include/uvpp/loop_posting.hpp:70-90 | in every run a post is cancelled if and only if a close was requested before, otherwise told to try again if and only if as much accepted work as the capacity is neither executed nor in the running batch, otherwise answered by `uv_async_send`; only an accepted post changes anything, and it comes last |
| LoopPosting.CloseIsImmediateIff | include/uvpp/loop_posting.hpp:208-214 | in any run, a close requested on an open endpoint starts native close at once if and only if everything accepted has been executed and its batch destroyed; a drain that found nothing holds no active batch, so only work posted meanwhile can delay the close |
| LoopPosting.PostOvertakesTheDrain | include/uvpp/loop_posting.hpp:140 | a post that lands between libuv clearing the flag and the first lock region is taken by that same drain and leaves its own wakeup behind |
| LoopPosting.WakeupMayFindNoWork | include/uvpp/loop_posting.hpp:169-175 | that wakeup then starts a drain with no work, which holds no active batch and does not delay a close |
| LoopPosting.PhaseOnlyMovesForward | include/uvpp/loop_posting.hpp:96-102 | along any run the phase never goes back, and after `uv_close` no further call reaches the native handle and nothing more is accepted |
| LoopPosting.CloseIsIssuedOnce | include/uvpp/loop_posting.hpp:208-214 | `uv_close` is called once in runs that reach closing and never in others; it is the last native call and finds no queued work and no active batch |
| LoopPosting.WaitersResumeOnceAfterClosed | include/uvpp/loop_posting.hpp:142-156 | close waiters are resumed in order of registration, each once, none before closed and none left over |
| LoopPosting.CeilDivIsCeiling | include/uvpp/loop_posting.hpp:158-198 | the batch count used below is the least number of budgets that holds the queue |
| LoopPosting.ClosingTakesExactlyDrainsLeft | include/uvpp/loop_posting.hpp:186-214 | from a draining endpoint, in every interleaving, closing is reached at the end of drain number ceil(queued / budget), plus one for a drain that has already taken its batch: no sooner and no later |
| LoopPosting.LoopThreadMakesProgress | include/uvpp/loop_posting.hpp:158-214 | once close is requested the loop thread always has an enabled step and each one lowers a measure |
| LoopPosting.RequestedCloseSettles | include/uvpp/loop_posting.hpp:96-214 | from any such state, whichever items throw, the loop thread alone reaches closed with everything accepted executed and every waiter resumed |
| LoopPosting.LoopPostingState.Create | include/uvpp/loop_posting.hpp:41-48 | an endpoint exists exactly for a positive capacity and a positive budget |
| LoopPosting.LoopPostingState.Post | include/uvpp/loop_posting.hpp:70-90 | a post to an endpoint that is not open is cancelled, one to a full queue is told to try again, and a failed wakeup is passed on; each leaves the state as it was, and an accepted post is last in the queue with a wakeup sent |
| LoopPosting.LoopPostingState.RequestClose | include/uvpp/loop_posting.hpp:96-102 | an idempotent request that leaves the queue alone and takes exactly the close step of the protocol |
| LoopPosting.LoopPostingState.AddCloseWaiter | include/uvpp/loop_posting.hpp:113-120 | a waiter is registered, last, unless the endpoint is closed |
| LoopPosting.LoopPostingState.AwaitClose | include/uvpp/loop_posting.hpp:276-285 | which answer a closer gets, the wrong loop included; one that suspends is registered before the request, so no completion can be missed |
| LoopPosting.LoopPostingState.MoveBatch | include/uvpp/loop_posting.hpp:159-172 | the batch is the first budget of the queue and the queue keeps the rest |
| LoopPosting.LoopPostingState.ReleaseBatch | include/uvpp/loop_posting.hpp:186-198 | work still queued when a drain ends leaves a wakeup behind |
| LoopPosting.LoopPostingState.InvokeBatch | include/uvpp/loop_posting.hpp:174-181 | the batch runs in order, whole, whichever items throw and whatever its items and other threads post or request meanwhile; the failures handed over are those of the throwing items |
| LoopPosting.LoopPostingState.Drain | include/uvpp/loop_posting.hpp:158-198 | a whole drain, with arbitrary calls before its first lock region, by producers and by the work itself, is a run of the protocol that executes exactly the first budget of what was queued when it took the lock and keeps everything else queued in front of what arrived later |
| LoopPosting.LoopPostingState.OnClose | include/uvpp/loop_posting.hpp:142-156 | the close callback, with arbitrary calls by each resumed waiter, ends with every registered waiter resumed in order and none added |
| TaskScope.ActiveChildrenCountsUncompleted | include/uvpp/co/task_scope.hpp:36-61 | in every run the counter is the number of uncompleted child records and the depth is the number of completion callbacks on the stack |
| TaskScope.JoinerIsHandedOutOnceAndAlone | include/uvpp/co/task_scope.hpp:113-141 | the joiner is handed out at most once, as soon as no child is active and no completion callback is running, and when it destroys the children none of their frames and no completion callback is on the stack, however deeply stop nested them |
| TaskScope.WithoutDirectStopTheStackIsEmpty | include/uvpp/co/task_scope.hpp:113-154 | when stop is raised only by failing children, hand-out happens on an empty stack, only the joiner itself is running when the children are destroyed, and a destroyed scope is never used again |
| TaskScope.DirectStopIsUnsafeIff | include/uvpp/co/task_scope.hpp:96-141 | in any run, a `request_stop()` called directly by user code can hand the joiner out, and can have the scope destroyed, before it returns, if and only if it is the first stop, no frame of the scope is active, and some child is |
| TaskScope.DirectStopDestroysItsScope | include/uvpp/co/task_scope.hpp:96 | the smallest run: the stop completes the only child, whose joiner destroys the scope while the stop is still walking it |
| TaskScope.JoinRethrowsEarliestFailure | include/uvpp/co/task_scope.hpp:143-154 | join rethrows the failure of the first child to complete with one, never one caused later by the stop |
| TaskScope.FirstFailureIsEarliest | include/uvpp/co/task_scope.hpp:120-132 | the recorded failure is the one with only successes before it |
| TaskScope.StoppedIffFailedOrAsked | include/uvpp/co/task_scope.hpp:120-132 | fail-fast: in every run stop has been requested if and only if some child failed or user code called `request_stop()` |
| TaskScope.FirstFailureStopsTheSiblings | include/uvpp/co/task_scope.hpp:129-131 | the completion of a failing child requests stop, and if that is the first stop every waiting sibling can be resumed on top of the completion callback; no other completion resumes anybody |
| TaskScope.Scope.SpawnChild | include/uvpp/co/task_scope.hpp:36-61 | which of a spawn after join, an invalid task, a failed allocation and success is answered; only success changes the scope, and then the new child is the innermost frame |
| TaskScope.Scope.AwaitJoin | include/uvpp/co/task_scope.hpp:71-84 | which of rejection, immediate continuation and suspension happens, from the loop, the join flag and the active children |
| TaskScope.Scope.BeginStop | include/uvpp/co/task_scope.hpp:96 | a stop called by user code walks the registrations exactly when it is the first |
| TaskScope.Scope.EnterCompletion | include/uvpp/co/task_scope.hpp:113-132 | the part of `child_completed` before stop returns: the child counts as completed, the first failure is kept, and exactly that failure requests stop, whose walk runs on top of the callback unless stop had been requested before |
| TaskScope.Scope.ExitCompletion | include/uvpp/co/task_scope.hpp:133-141 | the part after it: a continuation is returned exactly when the joiner is handed out |
| TaskScope.Scope.CompleteJoin | include/uvpp/co/task_scope.hpp:143-154 | the assertions of `finish_join` hold: no active child, depth zero, every record completed; the result is the earliest failure |
| Cancellation.FiresOnceUnlessUnregisteredFirst | include/uvpp/co/cancellation.hpp:60-72 | for all behaviours of all callbacks, a registration live at stop fires at most once, and it fires if and only if no earlier callback unregistered it |
| Cancellation.SurvivorsShape | include/uvpp/co/cancellation.hpp:47-58 | what any sequence of calls by one callback leaves on the list: exactly what it did not unregister, each once |
| Cancellation.WithoutShape | include/uvpp/co/cancellation.hpp:47-58 | unregistering removes that node and nothing else |
| Cancellation.CancellationState.RegisterCallback | include/uvpp/co/cancellation.hpp:33-45 | a registration goes to the front of the list, or is refused without any change once stop was requested |
| Cancellation.CancellationState.Unregister | include/uvpp/co/cancellation.hpp:47-58 | afterwards the chain is the old one without the node, also when the node was not registered |
| Cancellation.CancellationState.FindLink | include/uvpp/co/cancellation.hpp:52-55 | the walk over the chain never runs off its end: a node whose `state_` is this list is always found |
| Cancellation.CancellationState.Unlink | include/uvpp/co/cancellation.hpp:56-58 | rewiring one link keeps the chain finite, acyclic and equal to the set of nodes that point back at the list |
| Cancellation.CancellationState.RequestStop | include/uvpp/co/cancellation.hpp:60-72 | the loop terminates with an empty list, runs exactly the callbacks of the specification in order, and leaves every registration detached; a second request changes nothing |
| SpawnHandle.FailureHasOneDestination | include/uvpp/co/task.hpp:487-518 | in every order of failing, completing, observing and dropping the handle, a failure is never both observed and reported, is reported at most once, and is one of the two once the handle is gone and the joiners have been resumed |
| SpawnHandle.DestinationIsFinal | include/uvpp/co/task.hpp:504-518 | along any further run an observed failure stays unreported and a reported one stays unobserved |
| SpawnHandle.JoinersResumeOnce | include/uvpp/co/task.hpp:487-502 | joiners resume in order of suspension, each once, only after the root is done, also those whose awaiter outlived the handle; a join during or after delivery does not suspend; none is left over |
| SpawnHandle.DestroyedOnlyAfterTheRoot | include/uvpp/co/task.hpp:469-477 | the shared state goes away only with the root at its final suspension, all joiners resumed and the failure routed; no frame is active then other than the walk of a stop called on the handle, whose return is all that can still happen; in a run without such a stop no frame is active and nothing can happen |
| SpawnHandle.HandleStopIsUnsafeIff | include/uvpp/co/task.hpp:426 | in any run, a `request_stop()` called on the handle can have the shared state destroyed before it returns if and only if it is the first stop, the root has not completed, and neither it nor a task it awaits is the caller or below it |
| SpawnHandle.JoinerDropsTheHandleUnderTheStop | include/uvpp/co/task.hpp:426 | a run of that kind: the stop completes the root, the joiner it resumes drops its awaiter and the handle, and the baton gives up the last reference while the stop is still walking the registrations |
| SpawnHandle.RootState.AwaitJoin | include/uvpp/co/task.hpp:439-448 | an awaiter suspends exactly when the root has not completed and the loop matches, with or without the handle |
| SpawnHandle.RootState.ObserveFailure | include/uvpp/co/task.hpp:418-422 | what the caller sees, and that seeing a failure marks it observed |
| SpawnHandle.RootState.ReportUnobservedFailureIfNeeded | include/uvpp/co/task.hpp:510-518 | a failure is reported only when unobserved and unreported, and the mark is set for good |
| SpawnHandle.RootState.CompleteRoot | include/uvpp/co/task.hpp:487-502 | delivery, with arbitrary calls by each resumed joiner, is a run of the protocol that resumes every suspended joiner and reports an abandoned failure |
| SpawnHandle.RootState.DetachJoiners | include/uvpp/co/task.hpp:479-485 | the joiners are detached, all of them and in order, before the first one is resumed |
| SpawnHandle.RootState.StopThroughHandle | include/uvpp/co/task.hpp:424-426 | only the first stop walks; the root completes in it exactly when a callback lets it, and then every joiner has been resumed; the state is gone at the end only after a call that endangers it |
| SpawnHandle.RootState.ReleasePublicHandle | include/uvpp/co/task.hpp:608-621 | dropping the handle, also when the stop it raises completes the root on the spot, leaves a failure in exactly one place |
| AsyncClose.NativeCloseHappensOnce | include/uvpp/detail/async_close_state.hpp:28-34 | over all runs of close, repeated close, release and failure, `uv_close` is submitted at most once, and never while the owner is still quiescing |
| AsyncClose.ClosesIffAsked | include/uvpp/detail/owner_close.hpp:34-54 | in every run the owner has left its open phase if and only if a close, a request or a release was not refused, and exactly those who suspended in a close are registered, in order |
| AsyncClose.WaitersResumeOnceAfterClosed | include/uvpp/detail/async_close_state.hpp:67-84 | every close waiter resumes exactly once, in order, and only after the native close callback |
| AsyncClose.DeletedOnceAndNeverTouched | include/uvpp/detail/async_close_state.hpp:54-84 | the state is deleted at most once, exactly when it is released, closed and not delivering, after the last waiter; no event can touch it afterwards |
| AsyncClose.ReleasedOwnerIsDeleted | include/uvpp/net/tcp_connection.hpp:122-157 | a released owner never leaks: libuv's own steps carry the state to its deletion with every waiter resumed |
| AsyncClose.OwnerState.Close | include/uvpp/net/tcp_connection.hpp:104-110 | a request that claims the transition has submitted native close when it returns, whatever ran while quiescing; a busy owner is unchanged |
| AsyncClose.OwnerState.Quiesce | include/uvpp/fs_event_source.hpp:104-119 | user code run between the claim and `uv_close` can add waiters and release the owner but not close twice |
| AsyncClose.OwnerState.AwaitClosed | include/uvpp/detail/owner_close.hpp:34-54 | which answer a close awaiter gets, the loop being checked even for a closed owner, and that one that suspends was registered before close was requested |
| AsyncClose.OwnerState.ReleaseOwnership | include/uvpp/net/tcp_connection.hpp:122-131 | an open owner starts closing, and only a closed one with no delivery under way is deleted on the spot |
| AsyncClose.OwnerState.CloseFromCallback | include/uvpp/net/tcp_connection.hpp:114-117 | a failed connect resumes nobody yet: its continuation waits for the close it has just submitted |
| AsyncClose.OwnerState.OnClose | include/uvpp/net/tcp_connection.hpp:150-157 | the close callback, with arbitrary calls by each resumed waiter including release of the owner, ends with everyone resumed and deletes exactly when the owner is gone |
| ProcessLifetime.DeletedOnceIffNotReleasedDuringDelivery | include/uvpp/handles/process.hpp:676-714 | in every run, when the owner is gone and the close has completed, the state has been deleted exactly once if and only if the owner was not released while close waiters were being resumed; then nothing can touch it afterwards, and otherwise it was deleted twice |
| ProcessLifetime.DeletedStateIsUsedIffReleasedDuringDelivery | include/uvpp/handles/process.hpp:685-689 | a deleted state is still in use exactly while such a delivery goes on |
| ProcessLifetime.ReleaseAfterAwaitedClose | include/uvpp/handles/process.hpp:685-689 | the run in which the task that awaited the close drops the process |
| ProcessLifetime.FailedSpawnIsDeletedOnce | include/uvpp/handles/process.hpp:757-771 | the state of a failed spawn, which never has an owner, is deleted once by its close callback |
| ProcessLifetime.NativeCloseWaitsForExit | include/uvpp/handles/process.hpp:668-674 | native close is submitted at most once, never before the child has exited, and always once it has and the owner is gone |
| ProcessLifetime.ClosesIffAskedAfterExit | include/uvpp/handles/process.hpp:668-705 | in every run the native close of a spawned child has been submitted if and only if somebody asked for it after the exit, or the exit came after the owner was gone |
| ProcessLifetime.WaitersResumeOnce | include/uvpp/handles/process.hpp:692-714 | exit waiters and close waiters are resumed once each and in order, and none is left over; the one that waits for the exit is resumed by the exit or cancelled by its own stop |
| ProcessLifetime.ReleasedProcessIsDeleted | include/uvpp/handles/process.hpp:676-714 | an owner dropped before the exit leaks nothing: exit and close callbacks carry the state to its end with every waiter resumed |
| ProcessLifetime.ProcessState.AwaitExit | include/uvpp/handles/process.hpp:816-845 | which answer a wait gets, the wrong loop included; one that does not suspend changes nothing |
| ProcessLifetime.ProcessState.CloseRequested | include/uvpp/handles/process.hpp:895-903 | a close request is busy exactly until the exit |
| ProcessLifetime.ProcessState.AwaitClosed | include/uvpp/detail/owner_close.hpp:34-54 | which answer a close awaiter gets, the wrong loop included, and that it is registered before close is submitted |
| ProcessLifetime.ProcessState.DropOwner | include/uvpp/handles/process.hpp:676-690 | releasing starts the close only after the exit, and deletes exactly a closed state |
| ProcessLifetime.ProcessState.OnExit | include/uvpp/handles/process.hpp:692-705 | the waiting task is resumed by the exit, and without an owner the close is pending before that |
| ProcessLifetime.ProcessState.OnClose | include/uvpp/handles/process.hpp:707-714 | the close callback, with arbitrary calls by each resumed waiter, resumes everybody and deletes exactly when the owner is gone |
| AcceptOperation.ChildIsTransferredOrClosed | include/uvpp/net/tcp_listener.hpp:231-260 | an initialised child is provisional exactly while its awaiter holds the slot; afterwards it was transferred to one owner or natively closed once, and the status the task sees tells which |
| AcceptOperation.AcceptResumesOnce | include/uvpp/net/tcp_listener.hpp:240-282 | a suspended accept resumes exactly once, with slot and stop registration released; after an error, a stop or the listener's close only from the completed close of its child |
| AcceptOperation.StopReachesTheArmedAccept | include/uvpp/net/tcp_listener.hpp:207-282 | in every run a stop request reaches the armed accept if and only if its task can be cancelled; it then frees the slot, closes the child with `UV_ECANCELED`, touches nobody else, and the close of the child resumes the task |
| AcceptOperation.ArmedAcceptEnds | include/uvpp/net/tcp_listener.hpp:240-274 | in every run a connection that libuv accepts resumes the armed accept with its child, a failing one closes the child with the failing status, and the close of the listener cancels it; nobody else is touched |
| AcceptOperation.ClosedChildResumesItsTask | include/uvpp/net/tcp_listener.hpp:231-238 | the close callback of an untransferred child resumes its task, once and with an error |
| AcceptOperation.ListenerClosesOnce | include/uvpp/net/tcp_listener.hpp:61-69 | the listener submits its own native close exactly once if any close was requested and never otherwise, and by then the accept slot is free |
| AcceptOperation.Listener.AwaitAccept | include/uvpp/net/tcp_listener.hpp:180-215 | which answer an accept gets, with the wrong loop and every rejection status; one that suspends holds the slot, with its stop callback registered exactly if its task can be cancelled, unless that registration was refused, and then its child is closing |
| AcceptOperation.Listener.OnConnection | include/uvpp/net/tcp_listener.hpp:240-260 | a connection resumes the waiting accept with its child and the status of the accept, or closes the child with the failing status; the slot is free either way |
| AcceptOperation.Listener.QuiesceAccept | include/uvpp/net/tcp_listener.hpp:262-274 | the slot's holder, if any, is cancelled with its child closing, after the slot has been given up |
| AcceptOperation.Listener.OnStopRequested | include/uvpp/net/tcp_listener.hpp:276-282 | a stop cancels the accept only if it still holds the slot |
| AcceptOperation.Listener.RequestClose | include/uvpp/net/tcp_listener.hpp:61-69 | closing the listener cancels a waiting accept, closes its child and submits the native close of the listener, once |
| AcceptOperation.Listener.OnChildClosed | include/uvpp/net/tcp_connection.hpp:150-157 | the task waiting for the child's close is resumed by it |
| ResourceScope.RetirementFollowsTheOrder | include/uvpp/co/resource_scope.hpp:483-513 | across any failing and retried attempts the retired records are a prefix of one order, all listeners and then the rest as adopted, and the vector keeps exactly the others in place |
| ResourceScope.ListenersStopAdmissionFirst | include/uvpp/co/resource_scope.hpp:281-289 | no connection, socket or file begins cleanup while a listener record remains, and no record is retired that has not begun it |
| ResourceScope.NativeCloseCompletesOnce | include/uvpp/co/resource_scope.hpp:437-453 | no record completes two native closes, counting one from before its adoption, even when the first reported an error and cleanup was retried; every retired record completed one |
| ResourceScope.SealedVectorIsNotResized | include/uvpp/co/resource_scope.hpp:483-513 | from the first attempt on, whatever attempts, adoptions and completions do, nothing is adopted and the vector keeps its length until it is cleared at the end |
| ResourceScope.OrderAt | include/uvpp/co/resource_scope.hpp:483-513 | every adopted record has its place in the cleanup order |
| ResourceScope.Scope.Adopt | include/uvpp/co/resource_scope.hpp:160-174 | adoption is refused once cleanup has begun and for another loop; a resource that is closed already is adopted as such |
| ResourceScope.Scope.FinishRecord | include/uvpp/co/resource_scope.hpp:310-321 | exactly when a record is retired and when its failure interrupts the attempt and retains it |
| ResourceScope.Scope.CompleteRecord | include/uvpp/co/resource_scope.hpp:437-453 | a file whose close reported an error is kept but marked released, so it is not closed again |
| ResourceScope.Scope.FinishPhase | include/uvpp/co/resource_scope.hpp:483-513 | one pass over the vector, suspended any number of times, handles every slot once without resizing it |
| ResourceScope.Scope.FinishAll | include/uvpp/co/resource_scope.hpp:483-513 | an attempt is a run of the protocol that ends rejected, interrupted or complete with everything retired in order; it completes when nothing is busy and no close fails or has failed |
| Subscription.BuffersGoToTheirOwnReader | include/uvpp/handles/stream.hpp:411-429 | each buffer an allocator produced goes to the reader of the same subscription, however the handle was restarted, stopped or closed in between, and for UDP over all chunks of it |
| Subscription.LoanedBufferIsDelivered | include/uvpp/handles/udp.hpp:945-964 | the read callback for a loaned buffer is never dropped, and a chunk keeps the loan whatever its reader does |
| Subscription.SlotHoldsOnlyTheCurrentSubscription | include/uvpp/core/callback.hpp:50-59 | a retired subscription is never put back over a newer one, and the current one is in the slot or certain to be restored |
| Subscription.CallsDecideTheSubscription | include/uvpp/handles/stream.hpp:137-210 | in every run, what start, stop, listen and close make of the current subscription and of the listening and closing flags, from libuv's answers; nothing changes on a closing handle |
| Subscription.CallbackSlot.Invoke | include/uvpp/core/callback.hpp:62-77 | a callback that replaces its own slot while running, even with nothing, wins over being put back |
| Subscription.Handle.StartReading | include/uvpp/handles/stream.hpp:356-374 | when a start succeeds, the listening check included; a successful one is the subscription in the slot, and a rejected one leaves no subscription installed |
| Subscription.Handle.AllocTrampoline | include/uvpp/handles/stream.hpp:395-409 | the allocator called is that of the current subscription and the buffer is loaned to it |
| Subscription.Handle.ReadTrampoline | include/uvpp/handles/stream.hpp:411-429 | the reader called is that of the loan, or of the current subscription when there is none |
| UdpSendBatch.EveryViewShowsWhatWasAdded | include/uvpp/handles/udp.hpp:343-347 | after any reserve, append, clear, copy, move and swap on any batches, what libuv reads through every cached pointer is exactly what was added, in order; an operation that throws changes nothing |
| UdpSendBatch.Run | include/uvpp/handles/udp.hpp:219-276 | in every run all batches are well formed, denote what was put in them and share no storage |
| UdpSendBatch.ViewShowsDatagrams | include/uvpp/handles/udp.hpp:431-433 | no pointer of a well-formed batch is stale: each reads its own datagram |
| UdpSendBatch.DatagramsPartitionTheBuffer | include/uvpp/handles/udp.hpp:370-387 | put end to end the datagrams are the flat buffer |
| UdpSendBatch.ReserveKeepsDatagrams | include/uvpp/handles/udp.hpp:253-268 | reserving, with or without reallocation, keeps the batch well formed and its datagrams |
| UdpSendBatch.AppendAddsDatagram | include/uvpp/handles/udp.hpp:370-416 | appending, with or without reallocation, adds that datagram at the end and disturbs none |
| UdpSendBatch.CopyKeepsDatagrams | include/uvpp/handles/udp.hpp:219-229 | a copy has the same datagrams in storage of its own |
| UdpSendBatch.SendBatch.RebuildBufferPointers | include/uvpp/handles/udp.hpp:418-423 | every cached pointer is recomputed from the current storage |
| UdpSendBatch.SendBatch.ReserveFor | include/uvpp/handles/udp.hpp:253-268 | when reserve succeeds, and that the datagrams stay the same whether or not it does |
| UdpSendBatch.SendBatch.AppendDatagram | include/uvpp/handles/udp.hpp:370-416 | when append succeeds; a failed one leaves the batch as it was |
| UdpSendBatch.SendBatch.ClearAll | include/uvpp/handles/udp.hpp:270-276 | a cleared batch is well formed and denotes nothing |
| UdpSendBatch.SendBatch.Swap | include/uvpp/handles/udp.hpp:352-358 | two batches exchange everything, storage and pointers included |
| ReceiveHandle.BytesAreStoredInOrder | include/uvpp/net/pipe_connection.hpp:355-360 | over all notifications libuv is offered a nonempty slice right after the stored bytes and within the caller's buffer; the stored bytes are the stream and the rest of the buffer is untouched |
| ReceiveHandle.HandlesAreConserved | include/uvpp/net/pipe_connection.hpp:420-480 | when the operation is over every initialised handle is in the result in native order, or every one has been closed; nothing was allocated past the reserve |
| ReceiveHandle.NotificationAdoptsAllPending | include/uvpp/net/pipe_connection.hpp:417-480 | in every run one notification adopts every pending handle up to the first turn of the loop that breaks off: without such a turn the operation ends with exactly those handles in native order, or reads on when there are none and the buffer has room; with one it ends with that turn's status, everything initialised so far is closed in order, and so is the pipe |
| ReceiveHandle.OtherEndsKeepThePipe | include/uvpp/net/pipe_connection.hpp:362-415 | a failed read and a stop end the operation with their status, with nothing adopted and the pipe left open |
| ReceiveHandle.ReceiverResumesOnce | include/uvpp/net/pipe_connection.hpp:362-403 | the task resumes once, after a failed accept only from the close of the handle it left |
| ReceiveHandle.Receiver.OnAlloc | include/uvpp/net/pipe_connection.hpp:355-360 | the offered slice is nonempty and ends with the buffer |
| ReceiveHandle.Receiver.OnRead | include/uvpp/net/pipe_connection.hpp:362-403 | one notification, its bytes and all its pending handles, is one event: it ends the operation with all the handles, with the status of the turn that broke off, or not at all |
| ReceiveHandle.Receiver.OnReadFailed | include/uvpp/net/pipe_connection.hpp:362-403 | a failed read or the end of the stream ends the operation with that status, adopts nothing and resumes the task at once |
| ReceiveHandle.Receiver.OnStopRequested | include/uvpp/net/pipe_connection.hpp:405-415 | a stop ends the operation as cancelled with nothing received |
| ReceiveHandle.Receiver.OnChildClosed | include/uvpp/net/tcp_connection.hpp:150-157 | the task that waits for the close of a handle it could not accept is resumed by it, with an error |
| ReceiveHandle.Receiver.AdoptPendingTcp | include/uvpp/net/pipe_connection.hpp:420-480 | the loop adopts as many handles as there are leading turns that succeed, in native order, and ends with status 0 or with the status of the first turn that breaks off |
| ReceiveHandle.Receiver.Finish | include/uvpp/net/pipe_connection.hpp:492-503 | a failure discards the received owners and resumes at once only when no initialised handle is left |
| ReceiveHandle.Result.TakeTcp | include/uvpp/net/pipe_connection.hpp:53-63 | owners come out in the order they came in, and none is skipped |
| FsEventSource.ConsumedOutcomesSummarise | include/uvpp/fs_event_source.hpp:65-102 | every consumed outcome is the summary of exactly the notifications since the last consumption: the first failure if any, otherwise all flags and a name exactly when all carried it; none is lost, repeated or reordered |
| FsEventSource.SummaryIsUnique | include/uvpp/fs_event_source.hpp:65-102 | that summary determines the outcome |
| FsEventSource.MergeSummarises | include/uvpp/fs_event_source.hpp:84-102 | merging in place is summarising one notification more |
| FsEventSource.WaiterExcludesPending | include/uvpp/fs_event_source.hpp:210-247 | a claimed waiter and a pending outcome never coexist, and a closing source has neither |
| FsEventSource.WaitersResumeOnce | include/uvpp/fs_event_source.hpp:63-119 | in every run the tasks that suspended are those resumed, in order, and then the one that waits; a notification resumes it with its outcome, its own stop and a close with `UV_ECANCELED`; nobody waits on a closing source |
| FsEventSource.Source.DeliverEvent | include/uvpp/fs_event_source.hpp:65-102 | a waiting task gets the notification itself; otherwise it is merged as the protocol says |
| FsEventSource.Source.AwaitNext | include/uvpp/fs_event_source.hpp:210-247 | which answer `next()` gets, from the source's own fields; a consumed outcome summarises everything pending |
| FsEventSource.Source.CancelWaiter | include/uvpp/fs_event_source.hpp:279-284 | a stop resumes the waiting task as cancelled and frees the slot |
| FsEventSource.Source.RequestClose | include/uvpp/fs_event_source.hpp:104-119 | closing resumes the waiting task as cancelled and discards the pending outcome, once |
| HandleExport.ExportFlagMeansOneWriteInFlight | include/uvpp/net/tcp_connection.hpp:84-100 | a TCP owner's export flag is set exactly while one write on any of several pipes is in flight with its handle, never two, and the owner does not close meanwhile |
| HandleExport.PinIsReleasedOnceBeforeResumption | include/uvpp/detail/stream_io.hpp:206-283 | on every path, rejection, refused submission and completion, acquiring and releasing the pin are steps of their own and balance, at most once each and before the writer resumes |
| HandleExport.WritesResumeOnce | include/uvpp/detail/stream_io.hpp:269-283 | in every run a write that libuv took is resumed exactly once, by its completion and with its status, and no other write ever is; the completion frees that pipe and that handle and touches nothing else |
| HandleExport.TcpClosesIffFree | include/uvpp/net/tcp_connection.hpp:69-110 | in every run a TCP owner is closing if and only if a close was requested while it had no I/O of its own and no write passed its handle |
| HandleExport.Streams.AwaitWrite | include/uvpp/detail/stream_io.hpp:206-256 | which answer a write gets, with wrong loops, every rejection status and a refused submission, from the fields of the pipe and of the source; one that suspends holds the pipe's slot and the pin, and any other leaves every owner and every pipe slot as it found them |
| HandleExport.Streams.OnWrite | include/uvpp/detail/stream_io.hpp:269-283 | completion frees both the pipe's slot and the pin and resumes the writer with its status |
| HandleExport.Streams.RequestCloseTcp | include/uvpp/net/tcp_connection.hpp:212-220 | closing is refused exactly over the owner's own read or write and while some write holds the pin |
| FileClose.ClosersResumeOnce | include/uvpp/fs/coroutines.hpp:585-603 | in every run each closer that suspends is resumed exactly once with the status of the one native close, none before it and none left over, and a later closer gets that status at once |
| FileClose.OneCloseNeverOverTransfers | include/uvpp/fs/coroutines.hpp:532-574 | native close is submitted and completes at most once; from its submission on no transfer is under way and none can begin |
| FileClose.TransfersResumeOnce | include/uvpp/fs/coroutines.hpp:361-387 | in every run a transfer that suspends is resumed exactly once, by the completion of its own direction and with its status, and holds that direction's slot until then |
| FileClose.AwaiterIsAwaitedOnce | include/uvpp/fs/coroutines.hpp:294-298 | in every run an awaiter made through the file shares the state, and can be awaited also when the file has been dropped since |
| FileClose.CloseStatusIsFinal | include/uvpp/fs/coroutines.hpp:585-603 | along any further run a completed close keeps the status of its native completion |
| FileClose.StateOutlivesItsUsers | include/uvpp/fs/coroutines.hpp:44-58 | the shared state goes away only when every closer has been resumed, no transfer is under way, the file is not open, and no event can reach it |
| FileClose.SubmittedCloseSettles | include/uvpp/fs/coroutines.hpp:585-603 | from any state a submitted close carries every closer to its resumption |
| FileClose.FileState.AwaitTransfer | include/uvpp/fs/coroutines.hpp:307-345 | the exact answer for every state, loop, stop, empty buffer and submission status; only a suspended transfer holds its slot |
| FileClose.FileState.FinishTransfer | include/uvpp/fs/coroutines.hpp:376-387 | a native completion frees the slot of its own direction only and resumes the transfer that held it with its status |
| FileClose.FileState.AwaitClose | include/uvpp/fs/coroutines.hpp:532-574 | the first close submits, later ones join, a completed one answers at once, a busy file and a wrong loop are refused, and a refused submission leaves the list as it was |
| FileClose.FileState.OnComplete | include/uvpp/fs/coroutines.hpp:585-603 | the close callback, with arbitrary calls by each resumed task including another close, a transfer and dropping the file, is a run of the protocol that resumes every closer with the one status |
| FileClose.FileState.ResumeAll | include/uvpp/fs/coroutines.hpp:597-602 | the walk over the detached nodes reads each link before resuming its task and calls nothing on a node afterwards, as the preconditions of the node demand, whatever the resumed tasks do |

## Left out

- libuv itself, sockets, name resolution, the filesystem and process spawning; they are events with arbitrary results.
- The thin forwarding wrappers (`fs/operations.hpp`, `fs/result.hpp`, `misc/system.hpp`, `threading/primitives.hpp`, `requests/`, `net/address.hpp`), which would add only one-branch members.
- The raw process handle and its spawn options; past the first deletion of a process state the model goes on with the values the state had.
- `poll_source`, `signal_source`, `pipe_listener` and `udp_socket`, near copies of the owners modelled here.
- `stream_read_awaiter`, the value of a `task<T>`, `send_many` validation, and the static-callback and template variants.
- Nested `uv_run`, inline callbacks during `uv_read_start`, `std::terminate` diagnostics and wrap-around of generation counters.
- A posted item that throws while no failure handler is installed, a file dropped while it is open, and a refused `uv_fs_close` inside a resource scope: each ends the program.
- Buffers passed to a batch's append that alias the batch's own storage.
- Coroutine frames: a continuation is an identifier, and the destruction of a frame is visible only where a module records it.
- A `spawn_handle` that was moved from: it has no state, and its calls throw or answer `false`.
- AsyncClose.OwnerState.AwaitClosed: an awaiter made from a moved-from owner has no state to ask; it answers `UV_EBADF`.
- ProcessLifetime.ProcessState.AwaitExit: the same.
- ProcessLifetime.ProcessState.AwaitClosed: the same.
- AcceptOperation.Listener.AwaitAccept: the same.
- FsEventSource.Source.AwaitNext: the same.
- HandleExport.Streams.AwaitWrite: the same.
- FileClose.FileState.AwaitTransfer: the same; and a stop that comes after submission only asks libuv to cancel, so it changes nothing in the state.
- FileClose.FileState.AwaitClose: the same.
- TaskScope.Scope.SpawnChild: an allocation that fails before the record exists leaks the child's frame, which the scope does not see.
- TaskScope.Scope.EnterCompletion: `child_completed` is split at its call of `request_stop()`, because what that call runs is other events of the same run.
- Cancellation.CancellationState.RequestStop: no callback destroys the cancellation state itself; when the object that holds it can be destroyed under the walk is `TaskScope.DirectStopIsUnsafeIff` and `SpawnHandle.HandleStopIsUnsafeIff`.
- SpawnHandle.RootState.StopThroughHandle: a callback that lets the root complete resumes it once and the body makes no calls of its own on the way; the events allow any.
