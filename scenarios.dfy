/** Client scenarios of a threaded action, showing what a host can conclude from
    the action's contracts alone. */
module Scenarios {
  import opened GameKitTypes
  import opened SafeOutput
  import opened PartialResults
  import opened ThreadedActions

  const Info := LatentInfo(7, 42, 3, 1)

  /** The request every scenario issues. */
  const Req: int := 17

  /** A 4 KB persistent frame at address 0x1000. */
  const ScenarioFrame := Frame(0x1000, 0x1000)

  /** A bound observer, a running worker that streams a: the poll delivers
      (Req, a, false) and empties the queue. */
  method StreamWhileRunning(action: ThreadedAction<int, int>, a: int)
    requires action.Valid() && action.phase == Running && !action.workerReady
    requires action.delegate.IsBound() && action.request == Req
    requires action.log == [] && action.queue == Some([])
    modifies action, action.host
  {
    action.WorkerEnqueue(a);
    assert [] + [a] == [a];
    action.UpdateOperation();
    NotifyShape(Req, [a], false, action.emptyResult);
    assert action.log == [Call(Req, a, false)] && action.queue == Some([]);
    assert action.phase == Running && action.finished == [];
  }

  /** The worker streams b and c, then succeeds with `final`; no poll
      happens in between, so both items wait in the queue. */
  method StreamTwoThenComplete(action: ThreadedAction<int, int>, b: int, c: int, final: int)
    requires action.Valid() && action.phase == Running && !action.workerReady
    requires action.delegate.IsBound() && action.queue == Some([])
    modifies action
    ensures action.Valid() && action.phase == Running && action.workerReady
    ensures action.queue == Some([b, c]) && action.log == old(action.log)
    ensures action.err == OperationResult(GAMEKIT_SUCCESS, "") && action.results == final
  {
    action.WorkerEnqueue(b);
    action.WorkerEnqueue(c);
    assert [] + [b] + [c] == [b, c];
    action.WorkerComplete(OperationResult(GAMEKIT_SUCCESS, ""), final);
  }

  /** Continuing the run above: the worker streams b and c, then succeeds.
      The observer has seen (Req, a, false), (Req, b, false), (Req, c, true),
      with no synthetic call, and the pin lands in the caller's frame. */
  method StreamTwoThenSucceed(action: ThreadedAction<int, int>, a: int, b: int, c: int, final: int)
    requires action.Valid() && action.phase == Running && !action.workerReady
    requires action.delegate.IsBound() && action.request == Req
    requires action.log == [Call(Req, a, false)] && action.queue == Some([])
    requires action.outSuccessOrFailure == Caller(0x1000)
    modifies action, action.host
  {
    StreamTwoThenComplete(action, b, c, final);
    action.UpdateOperation();
    NotifyShape(Req, [b, c], true, action.emptyResult);
    assert action.log == [Call(Req, a, false), Call(Req, b, false), Call(Req, c, true)];
    assert action.phase == Completed && |action.finished| == 1;
    assert action.host.store.cells[0x1000] == PinValue(OnSuccess);
  }

  /** An unwired result pin: its stack slot at 0x8000 lies outside the frame,
      so the action's result output is the discard sink, while the pin,
      inside the frame, keeps the caller's destination. */
  method UnwiredResultIsDiscarded(empty: int)
  {
    var mem := new HostMemory(Store(map[], OnSuccess, OperationResult(0, ""), 0));
    var manager := new LatentActionManager();
    var action := MakeThreadedAction(manager, Info, ScenarioFrame, Req, 0x1000, 0x1010, 0x8000,
                                     Dynamic(true), empty, OperationResult(0, ""), mem);
    assert action.outResults == Discard && action.outSuccessOrFailure == Caller(0x1000);
    assert action.queue == Some([]) && action.log == [];
    assert manager.actions == [Registration(7, 42, action)];
  }

  /** A bound observer and a worker that streams nothing and fails: the one
      observer call is the synthetic final one, the pin is OnFailure, and the
      result goes to the discard sink. */
  method NothingStreamedThenFail(action: ThreadedAction<int, int>, final: int)
    requires action.Valid() && action.phase == Running && !action.workerReady
    requires action.delegate.IsBound() && action.request == Req
    requires action.log == [] && action.queue == Some([])
    requires action.outResults == Discard && action.outSuccessOrFailure == Caller(0x1000)
    modifies action, action.host
  {
    action.UpdateOperation();
    assert action.log == [] && action.queue == Some([]);
    action.WorkerComplete(OperationResult(5, "failed"), final);
    ghost var cellsBefore := action.host.store.cells;
    action.UpdateOperation();
    assert action.log == [Call(Req, action.emptyResult, true)];
    assert action.host.store.cells[0x1000] == PinValue(OnFailure);
    assert action.host.store.junkResults == final;
  }

  /** No result and no observer: no observer call, one finish. */
  method NoResultOperation()
  {
    var mem := new HostMemory(Store(map[], OnFailure, OperationResult(1, ""), Noop));
    var manager := new LatentActionManager();
    var action := MakeThreadedActionNoResult(manager, Info, ScenarioFrame, Req, 0x1000, 0x1010, 0x9000,
                                             OperationResult(1, ""), mem);
    action.LaunchThreadedWork();
    action.WorkerEnqueue(Noop);
    action.WorkerComplete(OperationResult(GAMEKIT_SUCCESS, ""), Noop);
    action.UpdateOperation();
    assert action.log == [] && |action.finished| == 1;
    assert mem.store.cells[0x1010] == StatusValue(OperationResult(GAMEKIT_SUCCESS, ""));
  }
}
