/** The poll-driven threaded latent action (TAwsGameKitInternalThreadedAction).

    The host's latent action manager polls the action once per tick on its
    single thread. The worker thread is replaced by two environment steps
    called between polls: WorkerEnqueue pushes a partial result, and
    WorkerComplete writes the final status and result and makes the worker
    ready. The shared ActionState is held in the action's own fields. */
module ThreadedActions {
  import opened GameKitTypes
  import opened SafeOutput
  import opened PartialResults

  /** Lifecycle of an action; it only moves forward. */
  datatype Phase = Created | Running | Completed

  /** The partial-results delegate: FNoopStruct (no streaming at all) or a
      dynamic delegate that may or may not be bound. */
  datatype Delegate = NoopStruct | Dynamic(bound: bool)
  {
    predicate IsBound()
    {
      Dynamic? && bound
    }
  }

  /** FLatentActionInfo: whom to resume, and under which key it is registered. */
  datatype LatentInfo = LatentInfo(callbackTarget: int, uuid: int, executionFunction: int, linkage: int)

  /** The host resumption a finished action requests. */
  datatype Trigger = Trigger(executionFunction: int, linkage: int, callbackTarget: int)

  /** What an action does that others can see, in the order it does it: an
      observer call, an assignment through a resolved output reference, or
      the finish request to the latent action manager. */
  datatype Event<Req, Res> = Observed(call: Call<Req, Res>) | Committed(target: OutputRef, value: Value<Res>) | Finished(trigger: Trigger)

  /** The events of a sequence of observer calls. */
  function Observations<Req, Res>(calls: seq<Call<Req, Res>>): (r: seq<Event<Req, Res>>)
    ensures |r| == |calls|
  {
    if |calls| == 0 then [] else [Observed(calls[0])] + Observations(calls[1..])
  }

  lemma {:induction false} ObservationsAt<Req, Res>(calls: seq<Call<Req, Res>>)
    ensures forall i :: 0 <= i < |calls| ==> Observations(calls)[i] == Observed(calls[i])
  {
    if |calls| > 0 {
      ObservationsAt(calls[1..]);
    }
  }

  lemma {:induction false} ObservationsAppend<Req, Res>(a: seq<Call<Req, Res>>, b: seq<Call<Req, Res>>)
    ensures Observations(a + b) == Observations(a) + Observations(b)
  {
    if |a| > 0 {
      assert (a + b)[1..] == a[1..] + b;
      ObservationsAppend(a[1..], b);
    } else {
      assert a + b == b;
    }
  }

  /** The events of a completed operation: every observer call comes before
      the first output is written, the outputs are written results first,
      then status, then the pin, and the finish request is the single last
      event. */
  lemma CompletionOrder<Req, Res>(calls: seq<Call<Req, Res>>, commits: seq<Event<Req, Res>>, t: Trigger)
    requires forall j :: 0 <= j < |commits| ==> commits[j].Committed?
    ensures var events := Observations(calls) + commits + [Finished(t)];
      (forall i :: 0 <= i < |calls| ==> events[i] == Observed(calls[i])) &&
      (forall i :: |calls| <= i < |events| - 1 ==> events[i].Committed?) &&
      events[|events| - 1] == Finished(t) &&
      (forall i :: 0 <= i < |events| - 1 ==> !events[i].Finished?)
  {
    ObservationsAt(calls);
  }

  class ThreadedAction<Req, Res> {
    const latentInfo: LatentInfo
    const request: Req
    const delegate: Delegate
    /** The default-constructed ResultType, used for the synthetic final call. */
    const emptyResult: Res
    /** Output references, resolved once at construction. */
    const outSuccessOrFailure: OutputRef
    const outResults: OutputRef
    const outStatus: OutputRef
    const host: HostMemory<Res>

    // ActionState, shared with the worker.
    var err: OperationResult
    var results: Res
    var queue: Option<seq<Res>>

    var phase: Phase
    /** Whether the worker's future is ready. */
    var workerReady: bool
    /** The observer calls made so far, in order. */
    var log: seq<Call<Req, Res>>
    /** The FinishAndTriggerIf calls made so far. */
    var finished: seq<Trigger>
    /** Observer calls, output writes and finish requests, in the order made. */
    ghost var events: seq<Event<Req, Res>>

    /** Everything the worker enqueued, in order. */
    ghost var enqueued: seq<Res>
    /** The items drained by polls made while the worker was running. */
    ghost var delivered: seq<Res>
    /** The items drained by the completion poll. */
    ghost var finalDrain: seq<Res>

    /** The resumption a finished action asks for: its own execution function, linkage and target. */
    function FinishTrigger(): Trigger
    {
      Trigger(latentInfo.executionFunction, latentInfo.linkage, latentInfo.callbackTarget)
    }

    /** The three writes of the terminal commit, in the order they are made. */
    ghost function CommitEvents(): seq<Event<Req, Res>>
      reads this`results, this`err
    {
      [Committed(outResults, ResultsValue(results)),
       Committed(outStatus, StatusValue(err)),
       Committed(outSuccessOrFailure, PinValue(PinFor(err)))]
    }

    /** The streaming invariant: the queue exists exactly for a bound
        delegate, and the observer has seen, in enqueue order, what the drains
        so far took out of the queue; `completed` tells whether the
        completion drain has happened. */
    ghost predicate StreamValid(completed: bool)
      reads this`queue, this`log, this`enqueued, this`delivered, this`finalDrain
    {
      (queue.Some? <==> delegate.IsBound()) &&
      (!delegate.IsBound() ==> log == [] && enqueued == []) &&
      (delegate.IsBound() && !completed ==>
         log == Partials(request, delivered) && delivered + queue.value == enqueued) &&
      (delegate.IsBound() && completed ==>
         queue.value == [] && delivered + finalDrain == enqueued &&
         log == Partials(request, delivered) + Notify(request, finalDrain, true, emptyResult))
    }

    /** The event trace: the observer calls, then, once completed, the commit
        and the finish request. */
    ghost predicate TraceValid(completed: bool)
      reads this`events, this`log, this`results, this`err
    {
      events == Observations(log) + (if completed then CommitEvents() + [Finished(FinishTrigger())] else [])
    }

    ghost predicate Valid()
      reads this
    {
      (phase == Created ==> !workerReady && enqueued == [] && delivered == []) &&
      (phase == Completed ==> workerReady) &&
      finished == (if phase == Completed then [FinishTrigger()] else []) &&
      StreamValid(phase == Completed) &&
      TraceValid(phase == Completed)
    }

    /** Resolve the three outputs, start from an empty ActionState and create
        the queue when a bound delegate was supplied. */
    constructor (info: LatentInfo, frame: Frame, req: Req,
                 successOrFailureAddr: int, statusAddr: int, resultsAddr: int,
                 d: Delegate, empty: Res, initialErr: OperationResult, mem: HostMemory<Res>)
      requires FramePlausible(frame)
      ensures Valid() && phase == Created
      ensures latentInfo == info && request == req && delegate == d && emptyResult == empty && host == mem
      ensures outSuccessOrFailure == SafeOutputRef(frame, successOrFailureAddr)
      ensures outResults == SafeOutputRef(frame, resultsAddr)
      ensures outStatus == SafeOutputRef(frame, statusAddr)
      ensures queue == (if d.IsBound() then Some([]) else None)
      ensures err == initialErr && results == empty
      ensures log == [] && finished == [] && events == [] && !workerReady
    {
      latentInfo := info;
      request := req;
      delegate := d;
      emptyResult := empty;
      host := mem;
      outSuccessOrFailure := SafeOutputRef(frame, successOrFailureAddr);
      outResults := SafeOutputRef(frame, resultsAddr);
      outStatus := SafeOutputRef(frame, statusAddr);
      err := initialErr;
      results := empty;
      queue := None;
      phase := Created;
      workerReady := false;
      log := [];
      finished := [];
      events := [];
      enqueued := [];
      delivered := [];
      finalDrain := [];
      new;
      InitializePartialResultQueue();
    }

    /** The queue exists exactly when the delegate is bound. */
    method InitializePartialResultQueue()
      requires queue == None
      modifies this`queue
      ensures queue == (if delegate.IsBound() then Some([]) else None)
    {
      if delegate.IsBound() {
        queue := Some([]);
      }
    }

    /** LaunchThreadedWork: the worker starts and the action runs. */
    method LaunchThreadedWork()
      requires Valid() && phase == Created
      modifies this`phase
      ensures Valid() && phase == Running
    {
      phase := Running;
    }

    /** Worker step: stream a partial result, which the worker skips when no
        queue was created. */
    method WorkerEnqueue(x: Res)
      requires Valid() && phase == Running && !workerReady
      modifies this`queue, this`enqueued
      ensures Valid()
      ensures queue == (if old(queue).Some? then Some(old(queue).value + [x]) else None)
      ensures enqueued == (if old(queue).Some? then old(enqueued) + [x] else old(enqueued))
    {
      if queue.Some? {
        queue := Some(queue.value + [x]);
        enqueued := enqueued + [x];
      }
    }

    /** Worker step: the final write into ActionState, after which the future is ready. */
    method WorkerComplete(e: OperationResult, r: Res)
      requires Valid() && phase == Running && !workerReady
      modifies this`err, this`results, this`workerReady
      ensures Valid()
      ensures err == e && results == r && workerReady
    {
      err := e;
      results := r;
      workerReady := true;
    }

    /** Drain the queue into the observer. With no bound delegate nothing happens. */
    method DispatchPartialResults(threadComplete: bool)
      requires delegate.IsBound() ==> queue.Some?
      modifies this`queue, this`log, this`events
      ensures !delegate.IsBound() ==> queue == old(queue) && log == old(log) && events == old(events)
      ensures delegate.IsBound() ==>
        queue == Some([]) &&
        log == old(log) + Notify(request, old(queue).value, threadComplete, emptyResult) &&
        events == old(events) + Observations(Notify(request, old(queue).value, threadComplete, emptyResult))
    {
      if !delegate.IsBound() {
        return;
      }
      ghost var q0 := queue.value;
      ghost var k := 0;
      ghost var made: seq<Call<Req, Res>> := [];
      var invokedWithFinal := false;
      while |queue.value| > 0
        invariant queue.Some? && 0 <= k <= |q0| && queue.value == q0[k..]
        invariant invokedWithFinal == (threadComplete && k == |q0| && k > 0)
        invariant made == (if invokedWithFinal then Notify(request, q0, true, emptyResult)
                           else Partials(request, q0[..k]))
        invariant log == old(log) + made && events == old(events) + Observations(made)
        decreases |queue.value|
      {
        var temp := queue.value[0];
        queue := Some(queue.value[1..]);
        var finalInvoke := threadComplete && |queue.value| == 0;
        invokedWithFinal := invokedWithFinal || finalInvoke;
        Execute(Call(request, temp, finalInvoke));
        ObservationsAppend(made, [Call(request, temp, finalInvoke)]);
        DrainStep(request, q0, k, threadComplete, emptyResult);
        made := made + [Call(request, temp, finalInvoke)];
        k := k + 1;
      }
      assert q0[..k] == q0;
      if threadComplete && !invokedWithFinal {
        Execute(Call(request, emptyResult, true));
        ObservationsAppend(made, [Call(request, emptyResult, true)]);
      }
    }

    /** Delegate.Execute: one observer call, logged and recorded as an event. */
    method Execute(c: Call<Req, Res>)
      modifies this`log, this`events
      ensures log == old(log) + [c] && events == old(events) + [Observed(c)]
    {
      log := log + [c];
      events := events + [Observed(c)];
    }

    /** The observer calls one dispatch makes from the queue `q`. */
    function DrainCalls(q: Option<seq<Res>>, complete: bool): seq<Call<Req, Res>>
    {
      if delegate.IsBound() && q.Some? then Notify(request, q.value, complete, emptyResult) else []
    }

    /** One poll by the latent action manager. */
    method UpdateOperation()
      requires Valid() && phase == Running
      modifies this`queue, this`log, this`phase, this`finished, this`events,
               this`delivered, this`finalDrain, host
      ensures Valid()
      ensures queue == (if delegate.IsBound() then Some([]) else old(queue))
      ensures log == old(log) + DrainCalls(old(queue), workerReady)
      ensures !workerReady ==>
        phase == Running && finished == old(finished) && host.store == old(host.store) &&
        events == old(events) + Observations(DrainCalls(old(queue), false))
      ensures workerReady ==>
        phase == Completed &&
        finished == [FinishTrigger()] &&
        events == old(events) + Observations(DrainCalls(old(queue), true)) + CommitEvents() + [Finished(FinishTrigger())] &&
        host.store == Write(Write(Write(old(host.store), outResults, ResultsValue(results)),
                                  outStatus, StatusValue(err)),
                            outSuccessOrFailure, PinValue(PinFor(err)))
      ensures phase == Completed ==> CountFinal(log) == if delegate.IsBound() then 1 else 0
    {
      if workerReady {
        FinalPoll();
      } else {
        ghost var q := queue;
        ghost var log0 := log;
        DispatchPartialResults(false);
        if q.Some? {
          NotifyRunningCompose(request, delivered, q.value, emptyResult);
          ObservationsAppend(log0, Notify(request, q.value, false, emptyResult));
          delivered := delivered + q.value;
        }
      }
    }

    /** The poll that finds the worker ready: a final drain, the commit of the
        outputs, one finish. */
    method FinalPoll()
      requires Valid() && phase == Running && workerReady
      modifies this`queue, this`log, this`phase, this`finished, this`events, this`finalDrain, host
      ensures Valid() && phase == Completed && finished == [FinishTrigger()]
      ensures queue == (if delegate.IsBound() then Some([]) else old(queue))
      ensures log == old(log) + DrainCalls(old(queue), true)
      ensures events == old(events) + Observations(DrainCalls(old(queue), true)) + CommitEvents() + [Finished(FinishTrigger())]
      ensures host.store == Write(Write(Write(old(host.store), outResults, ResultsValue(results)),
                                        outStatus, StatusValue(err)),
                                  outSuccessOrFailure, PinValue(PinFor(err)))
      ensures CountFinal(log) == if delegate.IsBound() then 1 else 0
    {
      FinalDrain();
      CommitOutputs();
      Finish();
    }

    /** The finish request of the completion poll, once the drain and the
        commit are done: FinishAndTriggerIf(true, …) with the latent info's
        function, linkage and target. */
    method Finish()
      requires phase == Running && workerReady && finished == []
      requires StreamValid(true) && events == Observations(log) + CommitEvents()
      modifies this`phase, this`finished, this`events
      ensures Valid() && phase == Completed && finished == [FinishTrigger()]
      ensures events == old(events) + [Finished(FinishTrigger())]
    {
      finished := finished + [FinishTrigger()];
      events := events + [Finished(FinishTrigger())];
      phase := Completed;
    }

    /** The drain of the completion poll, with the bookkeeping of what it delivered. */
    method FinalDrain()
      requires Valid() && phase == Running && workerReady
      modifies this`queue, this`log, this`events, this`finalDrain
      ensures queue == (if delegate.IsBound() then Some([]) else old(queue))
      ensures log == old(log) + DrainCalls(old(queue), true)
      ensures events == old(events) + Observations(DrainCalls(old(queue), true))
      ensures events == Observations(log)
      ensures CountFinal(log) == if delegate.IsBound() then 1 else 0
      ensures StreamValid(true)
    {
      ghost var q := queue;
      ghost var log0 := log;
      DispatchPartialResults(true);
      if q.Some? {
        finalDrain := q.value;
        WholeOperationFinal(request, delivered, finalDrain, emptyResult);
        ObservationsAppend(log0, Notify(request, q.value, true, emptyResult));
      }
    }

    /** The terminal commit: results, then status, then the success/failure
        pin derived from the status, each through its resolved reference. */
    method CommitOutputs()
      modifies host, this`events
      ensures host.store == Write(Write(Write(old(host.store), outResults, ResultsValue(results)),
                                        outStatus, StatusValue(err)),
                                  outSuccessOrFailure, PinValue(PinFor(err)))
      ensures events == old(events) + CommitEvents()
    {
      host.Assign(outResults, ResultsValue(results));
      host.Assign(outStatus, StatusValue(err));
      host.Assign(outSuccessOrFailure, PinValue(PinFor(err)));
      events := events + CommitEvents();
    }
  }

  /** A registration with FLatentActionManager, keyed by callback target and UUID. */
  datatype Registration = Registration(callbackTarget: int, uuid: int, action: object)

  /** FLatentActionManager, reduced to the list of registered actions. */
  class LatentActionManager {
    var actions: seq<Registration>

    constructor ()
      ensures actions == []
    {
      actions := [];
    }

    method AddNewAction(callbackTarget: int, uuid: int, action: object)
      modifies this
      ensures actions == old(actions) + [Registration(callbackTarget, uuid, action)]
    {
      actions := actions + [Registration(callbackTarget, uuid, action)];
    }
  }

  /** InternalMakeAwsGameKitThreadedAction: build the action, register it
      and hand it back as the state handle for the worker. */
  method MakeThreadedAction<Req, Res>(manager: LatentActionManager, info: LatentInfo, frame: Frame, req: Req,
                                      successOrFailureAddr: int, statusAddr: int, resultsAddr: int,
                                      d: Delegate, empty: Res, initialErr: OperationResult, mem: HostMemory<Res>)
    returns (action: ThreadedAction<Req, Res>)
    requires FramePlausible(frame)
    modifies manager
    ensures fresh(action) && action.Valid() && action.phase == Created
    ensures action.latentInfo == info && action.request == req && action.delegate == d
    ensures action.emptyResult == empty && action.host == mem
    ensures action.outSuccessOrFailure == SafeOutputRef(frame, successOrFailureAddr)
    ensures action.outResults == SafeOutputRef(frame, resultsAddr)
    ensures action.outStatus == SafeOutputRef(frame, statusAddr)
    ensures action.queue == (if d.IsBound() then Some([]) else None)
    ensures action.err == initialErr && action.results == empty
    ensures action.log == [] && action.finished == [] && action.events == []
    ensures manager.actions == old(manager.actions) + [Registration(info.callbackTarget, info.uuid, action)]
  {
    action := new ThreadedAction(info, frame, req, successOrFailureAddr, statusAddr, resultsAddr,
                                 d, empty, initialErr, mem);
    manager.AddNewAction(info.callbackTarget, info.uuid, action);
  }

  /** The overload for operations without a result: the result output is a
      local of the factory, which lies outside the persistent frame. */
  method MakeThreadedActionNoResult<Req>(manager: LatentActionManager, info: LatentInfo, frame: Frame, req: Req,
                                         successOrFailureAddr: int, statusAddr: int, localResultAddr: int,
                                         initialErr: OperationResult, mem: HostMemory<Noop>)
    returns (action: ThreadedAction<Req, Noop>)
    requires FramePlausible(frame)
    requires !InFrame(frame, localResultAddr)
    modifies manager
    ensures fresh(action) && action.Valid() && action.phase == Created
    ensures action.outResults == Discard
    ensures action.latentInfo == info && action.request == req && action.host == mem
    ensures action.delegate == NoopStruct && action.queue == None && action.emptyResult == Noop
    ensures action.err == initialErr && action.results == Noop
    ensures action.log == [] && action.finished == [] && action.events == []
    ensures action.outSuccessOrFailure == SafeOutputRef(frame, successOrFailureAddr)
    ensures action.outStatus == SafeOutputRef(frame, statusAddr)
    ensures manager.actions == old(manager.actions) + [Registration(info.callbackTarget, info.uuid, action)]
  {
    action := MakeThreadedAction(manager, info, frame, req, successOrFailureAddr, statusAddr, localResultAddr,
                                 NoopStruct, Noop, initialErr, mem);
  }
}
