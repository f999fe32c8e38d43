/** Plain values shared by the threaded latent action: the optional wrapper,
    GameKit's operation result and the success/failure execution pin. */
module GameKitTypes {

  datatype Option<T> = None | Some(value: T)

  /** GameKit's success status code. Only equality with it is ever tested. */
  const GAMEKIT_SUCCESS: nat := 0

  /** FAwsGameKitOperationResult: a status code and an optional message. */
  datatype OperationResult = OperationResult(status: nat, message: string)

  /** EAwsGameKitSuccessOrFailureExecutionPin. */
  datatype ExecPin = OnSuccess | OnFailure

  /** The pin a finished operation leaves on: OnSuccess exactly for the success code. */
  function PinFor(err: OperationResult): (pin: ExecPin)
    ensures pin == OnSuccess <==> err.status == GAMEKIT_SUCCESS
    ensures pin == OnFailure <==> err.status != GAMEKIT_SUCCESS
  {
    if err.status == GAMEKIT_SUCCESS then OnSuccess else OnFailure
  }

  /** FNoopStruct: the result type of operations that produce no result. */
  datatype Noop = Noop
}
