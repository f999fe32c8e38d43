# AwsGameKit threaded latent action — a Dafny model

AwsGameKit runs blocking SDK calls for Unreal Blueprints as *latent actions*.
A `TAwsGameKitInternalThreadedAction` is created by
`InternalMakeAwsGameKitThreadedAction`, registered with the world's latent
action manager, and started on a worker thread. The manager then polls it
once per tick (`UpdateOperation`). Each poll drains the partial-results
queue into the Blueprint's streaming delegate. The poll that finds the
worker's future ready makes a final drain, commits `Results` and `Err` to the
Blueprint's outputs, picks the OnSuccess or OnFailure pin and finishes the
action. Output references are resolved once, at construction, by
`InternalAwsGameKitThreadedActionSafeOutputRef`. A reference that points into
the persistent uber-graph frame is kept as it is. Any other reference is a
stack slot of an unwired pin; it is redirected to a static discard variable
of the output's type.

This project models that sequential, poll-thread logic:

- `GameKitTypes` — the operation result, the success/failure pin, `FNoopStruct`, the success code.
- `SafeOutput` — the frame range check, resolved references (`Caller(addr)` or `Discard`), and host memory.
  Host memory is a map from addresses to values plus one discard variable per output type. Writes go through a resolved reference.
- `PartialResults` — pure sequences of observer calls `(request, value, isFinal)`.
  They give the calls of one drain (`Notify`), and lemmas about order, the final flag and whole operations.
- `ThreadedActions` — the action as a class. It has the ActionState fields (`err`, `results`, the optional queue as a `seq`), the resolved outputs, the observer call log, the list of finish requests and the lifecycle `Created → Running → Completed`.
  Its methods are the constructor, `InitializePartialResultQueue`, `LaunchThreadedWork`, `DispatchPartialResults` and `UpdateOperation`.
  The worker thread becomes two steps called between polls: `WorkerEnqueue` and `WorkerComplete`.
  The module also holds the latent action manager's registration list and both factory overloads.
- `Scenarios` — client scenarios: three streamed items with an intermediate poll, a stream with nothing in it that then fails, and the no-result overload.

The `Valid()` invariant of `ThreadedAction` states the whole-operation
streaming guarantee. Every enqueued item appears in the log once, in enqueue
order, split into the drains made while the worker ran (`delivered`) and the
completion drain (`finalDrain`). Without a bound delegate the log stays empty
and no queue exists. `UpdateOperation` proves that once the action is
Completed, exactly one logged call carries `isFinal = true` (none without a
delegate).

A ghost event trace records, in order, every observer call, every write of an
output and the finish request. `Valid()` ties it to the log and, once the
action is Completed, to the three writes and the one finish that follow the
last drain. The completion poll's contract states its trace outright: the
final drain's calls, then results, status and pin, then the finish.

## Model

| member | source | states |
|---|---|---|
| `SafeOutput.SafeOutputRef` | AwsGameKit/Source/AwsGameKitRuntime/Public/Common/AwsGameKitBlueprintCommon.h:48-75 | Needs a plausible frame: non-null and `0 < size < 0x10000000`. The result is the caller's reference unchanged iff the address is in `[base, base+size)`; otherwise it is the discard sink |
| `GameKitTypes.PinFor` | AwsGameKit/Source/AwsGameKitRuntime/Public/Common/AwsGameKitBlueprintCommon.h:123 | The pin is OnSuccess exactly when the status equals `GAMEKIT_SUCCESS`, and OnFailure exactly when it differs |
| `SafeOutput.Write` | AwsGameKit/Source/AwsGameKitRuntime/Public/Common/AwsGameKitBlueprintCommon.h:121-123 | A write through a caller reference changes exactly that destination and no discard variable. A write through the discard sink changes no caller destination and lands in the discard variable of the value's type, leaving the other two as they were |
| `SafeOutput.DeferredWriteStaysInFrame` | AwsGameKit/Source/AwsGameKitRuntime/Public/Common/AwsGameKitBlueprintCommon.h:40-62 | A deferred write through any resolved reference leaves every address outside the persistent frame as it was: transient stack slots are never written |
| `SafeOutput.HostMemory.Assign` | AwsGameKit/Source/AwsGameKitRuntime/Public/Common/AwsGameKitBlueprintCommon.h:121-123 | Assignment through a resolved output reference updates host memory as `Write` describes |
| `PartialResults.Partials` | AwsGameKit/Source/AwsGameKitRuntime/Public/Common/AwsGameKitBlueprintCommon.h:162-168 | A drain while the worker runs makes exactly one call per dequeued item |
| `PartialResults.Notify` | AwsGameKit/Source/AwsGameKitRuntime/Public/Common/AwsGameKitBlueprintCommon.h:159-174 | One drain makes one call per queued item, or the single synthetic call when the worker has completed and the queue is empty. On the completion poll the last call is final and carries the last item, or the empty result when nothing was queued |
| `PartialResults.PartialsAt` | AwsGameKit/Source/AwsGameKitRuntime/Public/Common/AwsGameKitBlueprintCommon.h:159-168 | A drain while the worker runs makes one call per queued item: the i-th call carries the i-th item, with `isFinal = false` |
| `PartialResults.PartialsAppend` | AwsGameKit/Source/AwsGameKitRuntime/Public/Common/AwsGameKitBlueprintCommon.h:159-168 | Draining `a` and then `b` while the worker runs gives the calls of draining `a + b` |
| `PartialResults.CountFinalAppend` | AwsGameKit/Source/AwsGameKitRuntime/Public/Common/AwsGameKitBlueprintCommon.h:159-174 | The final calls of two logs add up |
| `PartialResults.DrainStep` | AwsGameKit/Source/AwsGameKitRuntime/Public/Common/AwsGameKitBlueprintCommon.h:162-168 | One loop iteration: the calls for the first k dequeued items, followed by the call for item k, are the calls for the first k + 1 items. On the completion poll, when item k is the last one, they are the whole completion drain with the final flag on that call |
| `PartialResults.PartialsNotFinal` | AwsGameKit/Source/AwsGameKitRuntime/Public/Common/AwsGameKitBlueprintCommon.h:164-167 | No call made while the worker runs carries `isFinal = true` |
| `PartialResults.NotifyRunningCompose` | AwsGameKit/Source/AwsGameKitRuntime/Public/Common/AwsGameKitBlueprintCommon.h:126-129 | Successive not-ready polls deliver the concatenation of what they drained, in order |
| `PartialResults.NotifyShape` | AwsGameKit/Source/AwsGameKitRuntime/Public/Common/AwsGameKitBlueprintCommon.h:159-174 | A drain of n > 0 items (or any drain before completion) makes exactly n calls, in FIFO order. `isFinal` is set on the last call only, and only on the completion poll. A completion drain of an empty queue is exactly one call `(request, empty result, true)` |
| `PartialResults.NotifyFinalCount` | AwsGameKit/Source/AwsGameKitRuntime/Public/Common/AwsGameKitBlueprintCommon.h:159-174 | A completion drain has exactly one final call, and it is the last call. A drain before completion has none |
| `PartialResults.WholeOperationFinal` | AwsGameKit/Source/AwsGameKitRuntime/Public/Common/AwsGameKitBlueprintCommon.h:118-129 | Over a whole operation (drains while the worker ran, then the completion drain), exactly one call is final. It is the last call, no earlier call is final, and every call carries the request |
| `PartialResults.WholeOperationValues` | AwsGameKit/Source/AwsGameKitRuntime/Public/Common/AwsGameKitBlueprintCommon.h:159-174 | Over a whole operation, if the completion drain found items, the calls' values are all enqueued items in enqueue order. Otherwise the log is the earlier partials followed by one synthetic empty call |
| `ThreadedActions.Observations` | AwsGameKit/Source/AwsGameKitRuntime/Public/Common/AwsGameKitBlueprintCommon.h:162-174 | The trace of a sequence of observer calls has one event per call |
| `ThreadedActions.ObservationsAt` | AwsGameKit/Source/AwsGameKitRuntime/Public/Common/AwsGameKitBlueprintCommon.h:167-173 | The i-th event of that trace is the observation of the i-th call |
| `ThreadedActions.ObservationsAppend` | AwsGameKit/Source/AwsGameKitRuntime/Public/Common/AwsGameKitBlueprintCommon.h:162-174 | The trace of two successive batches of calls is the first batch's trace followed by the second's |
| `ThreadedActions.CompletionOrder` | AwsGameKit/Source/AwsGameKitRuntime/Public/Common/AwsGameKitBlueprintCommon.h:118-124 | In the trace of a completion poll (the drain's calls, then the output writes, then the finish), every drain call comes first and in order, every write comes after all of them, the last event is the finish, and no earlier event is a finish |
| `ThreadedActions.ThreadedAction.constructor` | AwsGameKit/Source/AwsGameKitRuntime/Public/Common/AwsGameKitBlueprintCommon.h:87-97 | All three outputs are resolved against the frame. The queue exists iff the delegate is bound. Nothing has been called, finished or launched |
| `ThreadedActions.ThreadedAction.InitializePartialResultQueue` | AwsGameKit/Source/AwsGameKitRuntime/Public/Common/AwsGameKitBlueprintCommon.h:136-149 | The queue is emplaced, empty, exactly for a bound dynamic delegate. With `FNoopStruct` or an unbound delegate none is allocated |
| `ThreadedActions.ThreadedAction.LaunchThreadedWork` | AwsGameKit/Source/AwsGameKitRuntime/Public/Common/AwsGameKitBlueprintCommon.h:103-111 | Only a Created action can be launched. It becomes Running, and nothing else changes |
| `ThreadedActions.ThreadedAction.WorkerEnqueue` | AwsGameKit/Source/AwsGameKitRuntime/Public/Common/AwsGameKitBlueprintCommon.h:103-106 | The worker appends a partial result to the queue when the queue exists. With no queue it skips the enqueue. The invariant is kept |
| `ThreadedActions.ThreadedAction.WorkerComplete` | AwsGameKit/Source/AwsGameKitRuntime/Public/Common/AwsGameKitBlueprintCommon.h:99-111 | The worker's final write of `Err` and `Results`, after which its future is ready |
| `ThreadedActions.ThreadedAction.DispatchPartialResults` | AwsGameKit/Source/AwsGameKitRuntime/Public/Common/AwsGameKitBlueprintCommon.h:139-175 | With no bound delegate, the queue, the log and the event trace are unchanged. Otherwise the queue ends empty, and both the log and the trace grow by exactly the calls `Notify` gives for the old queue contents, in that order |
| `ThreadedActions.ThreadedAction.UpdateOperation` | AwsGameKit/Source/AwsGameKitRuntime/Public/Common/AwsGameKitBlueprintCommon.h:115-130 | Needs a Running action: launched and not completed. The queue ends empty when a delegate is bound and is untouched otherwise. A not-ready poll only drains: the trace grows by the drain's calls, outputs are untouched, no finish, still Running. A ready poll's trace grows by the final drain's calls, then the writes of results, status and the pin (OnSuccess iff `Err.Status == GAMEKIT_SUCCESS`) in that order, then one finish. Host memory ends as those three writes leave it, the action is Completed, and exactly one observer call in the log is final when a delegate is bound |
| `ThreadedActions.ThreadedAction.FinalPoll` | AwsGameKit/Source/AwsGameKitRuntime/Public/Common/AwsGameKitBlueprintCommon.h:118-125 | The ready branch of a poll. The trace grows by the final drain's calls, then the three output writes, then exactly one finish requesting resumption of the latent info's function, linkage and target. The whole log then holds exactly one final call when a delegate is bound, none otherwise |
| `ThreadedActions.ThreadedAction.Execute` | AwsGameKit/Source/AwsGameKitRuntime/Public/Common/AwsGameKitBlueprintCommon.h:167-173 | `Delegate.Execute`: one observer call, appended to the log and observed in the trace |
| `ThreadedActions.ThreadedAction.FinalDrain` | AwsGameKit/Source/AwsGameKitRuntime/Public/Common/AwsGameKitBlueprintCommon.h:120 | The completion drain: the queue ends empty when bound, the log and trace grow by the completion drain's calls, and the whole log then holds exactly one final call when bound |
| `ThreadedActions.ThreadedAction.Finish` | AwsGameKit/Source/AwsGameKitRuntime/Public/Common/AwsGameKitBlueprintCommon.h:124 | After the completion drain and the commit: one finish, requesting resumption of the latent info's function, linkage and target, is recorded and appended to the trace as its last event, and the action is Completed |
| `ThreadedActions.ThreadedAction.CommitOutputs` | AwsGameKit/Source/AwsGameKitRuntime/Public/Common/AwsGameKitBlueprintCommon.h:121-123 | Results, then status, then the pin derived from the status, each written through its resolved reference. The trace grows by those three writes in that order |
| `ThreadedActions.LatentActionManager.AddNewAction` | AwsGameKit/Source/AwsGameKitRuntime/Public/Common/AwsGameKitBlueprintCommon.h:199 | The action is appended to the registrations under (callback target, UUID) |
| `ThreadedActions.MakeThreadedAction` | AwsGameKit/Source/AwsGameKitRuntime/Public/Common/AwsGameKitBlueprintCommon.h:187-202 | A fresh Created action that keeps the latent info, request, delegate, empty result and host memory, starts with the given `Err`, the empty result, resolved outputs, the queue iff bound and an empty log, trace and finish list, and is registered once with the manager under the latent info's target and UUID |
| `ThreadedActions.MakeThreadedActionNoResult` | AwsGameKit/Source/AwsGameKitRuntime/Public/Common/AwsGameKitBlueprintCommon.h:204-212 | The no-result overload: the local result lies outside the frame, so the result output resolves to the discard sink. The action keeps the latent info, request and host memory, has a `FNoopStruct` delegate and no queue, starts with the given `Err` and an empty log, trace and finish list, and is registered once with the manager |

## Left out

- Threads and futures (`Async(EAsyncExecution::Thread, …)`, `TFuture::IsReady`). The worker is the two environment steps `WorkerEnqueue` and `WorkerComplete`, interleaved between polls; readiness is the `workerReady` field.
- `TQueue`'s lock-free single-producer/single-consumer safety and its `IsEmpty` race. The model assumes the queue does not grow during a drain: polls and worker steps never overlap.
- The reflection that finds the persistent frame (`FindFunction`, `GetPersistentUberGraphFrame`, `GetStructureSize`). The frame's base and size are inputs.
- The `DO_CHECK` stack-proximity assertion in the resolver: it depends on platform stack layout.
- `Delegate`: the delegate's binding is taken as fixed for the action's lifetime (`delegate` is a constant). In the source a delegate can be unbound while the action is pending; later drains then return at once without dequeuing, and no final call is ever made.
- `FLatentResponse::FinishAndTriggerIf` is recorded as an entry in `finished`, not executed. Host resumption and the manager removing the action are not modelled; the requires on `UpdateOperation` forbid any poll after completion.
- The shared pointer between action and worker. ActionState is held in the action's fields, so the case where the action is destroyed before the worker finishes is not modelled.
- `MoveTemp(ThreadedState->Results)`: the moved-from source is modelled as keeping its value. It is never read again.
- The static discard variable is modelled as one sink per output kind (pin, status, result). When `ResultType` is itself `FAwsGameKitOperationResult`, the source would use one variable for both; the model keeps two.
- `GAMEKIT_SUCCESS` comes from `Core/AwsGameKitErrors.h`, which is not part of this model. It is taken as 0; only equality with it is used. The default value of `FAwsGameKitOperationResult` is not visible either, so the initial `Err` is a constructor parameter. No poll reads it before the worker's final write.
- MakeThreadedActionNoResult: the fact that the factory's local `Result` is a stack slot outside the persistent frame is taken as a precondition, not derived.
- `AwsGameKitSessionManagerWrapper.h` (the session manager's DLL function pointers and library names) is not part of this model.
