/** Optional values, results and the two kinds of error that travel through the adapters. */
module Outcomes {

  datatype Option<+T> = None | Some(value: T)

  /** The two RPC codes the adapters set themselves, and every other one. */
  datatype RpcCode = InvalidArgument | Internal | OtherCode(number: nat)

  /** An error value: either a *slim_rpc.RpcError or any other Go error, of which only the text matters. */
  datatype Error =
    | RpcError(code: RpcCode, message: string, details: Option<string>)
    | Plain(message: string)

  datatype Result<+T> = Ok(value: T) | Err(error: Error)

  /** One conversion after another; the first error is the result. */
  function Then<X, Y, Z>(f: X -> Result<Y>, g: Y -> Result<Z>, x: X): Result<Z> {
    match f(x)
    case Err(e) => Err(e)
    case Ok(y) => g(y)
  }

  /** slim_rpc.NewRpcErrorRpc(code, err.Error(), nil). */
  function NewRpcError(code: RpcCode, err: Error): Error {
    RpcError(code, err.message, None)
  }

  /** An RpcError passes through; any other error is given the code. */
  function ToRPCError(err: Error, code: RpcCode): Error {
    if err.RpcError? then err else NewRpcError(code, err)
  }

  /** The error after passing through a series of adapters, each with its own code. */
  function Rewrap(err: Error, codes: seq<RpcCode>): Error
    decreases |codes|
  {
    if codes == [] then err else Rewrap(ToRPCError(err, codes[0]), codes[1..])
  }

  /** At any depth the first adapter decides: later ones never change the error,
      and an error that was an RpcError to begin with is never changed at all. */
  lemma {:induction false} RewrapIsFirstWrap(err: Error, codes: seq<RpcCode>)
    ensures Rewrap(err, codes) == if codes == [] then err else ToRPCError(err, codes[0])
    ensures err.RpcError? ==> Rewrap(err, codes) == err
    decreases |codes|
  {
    if codes != [] {
      RewrapIsFirstWrap(ToRPCError(err, codes[0]), codes[1..]);
    }
  }
}
