/**
 * The MCP RPC endpoint's classification of a call's outcome into an `MCPResponse`: `list_tools`
 * is answered from the tool definitions, any other method is dispatched to the tool registry,
 * and an exception it raises becomes a JSON-RPC 2.0 error object (section 5.1 of the JSON-RPC
 * 2.0 specification) with a fixed code and message.
 */
module Router {
  import opened Wrappers
  import opened PyData
  import Backend
  import Service

  const MethodNotFound := -32601
  const InvalidParams := -32602
  const InternalError := -32603

  const GuardMessage := "Payment blocked by security policy"
  const PaymentMessage := "Payment processing failed"
  const UnexpectedMessage := "An unexpected error occurred"

  /** The `error` dict of a response; `detail` is its `data["detail"]`, present only with `data`. */
  datatype RpcError = RpcError(code: int, message: string, detail: Option<string>)

  /** `MCPResponse(result=..., error=..., id=...)`. */
  datatype RpcResponse<R, I> = RpcResponse(result: Option<R>, error: Option<RpcError>, id: I)

  /**
   * The `except` clauses, in their order: `ValueError`, then `GuardValidationError` (a kind of
   * `PaymentError`, so it is tried first), then `PaymentError`, then every other exception.
   */
  function ErrorFor(e: Exception): (r: RpcError)
    ensures r.code in {MethodNotFound, InvalidParams, InternalError}
    ensures r.code == MethodNotFound <==> e.ValueError?
    ensures r.code == InvalidParams <==> e.GuardValidationError?
    ensures r.detail.Some? <==> e.IsPaymentError()
    ensures r.detail.Some? ==> r.detail.value == e.Message()
    ensures e.ValueError? ==> r.message == e.Message()
    ensures e.GuardValidationError? ==> r.message == GuardMessage
    ensures e.PaymentError? ==> r.code == InternalError && r.message == PaymentMessage
    ensures e.OtherError? ==> r.code == InternalError && r.message == UnexpectedMessage
  {
    match e
    case ValueError(m) => RpcError(MethodNotFound, m, None)
    case GuardValidationError(d) => RpcError(InvalidParams, GuardMessage, Some(d))
    case PaymentError(d) => RpcError(InternalError, PaymentMessage, Some(d))
    case OtherError(_, _) => RpcError(InternalError, UnexpectedMessage, None)
  }

  /** `mcp_request.params or {}`: missing and empty params both reach the tool as `{}`. */
  function ParamsOrEmpty<V>(params: Option<map<string, V>>): (p: map<string, V>)
    ensures params.None? ==> p == map[]
    ensures params.Some? ==> p == params.value
  {
    if params.None? || params.value == map[] then map[] else params.value
  }

  /** The response, and whether the registry was called. */
  datatype RpcRun<R, I> = RpcRun(response: RpcResponse<R, I>, dispatched: bool)

  /**
   * `mcp_rpc_endpoint` for one request. `definitions` is the dumped tool list and `call` is
   * `registry.call`: the tool's result, or the exception it raises.
   */
  function HandleRpc<R, V, I>(rpcMethod: string, params: Option<map<string, V>>, id: I, definitions: R,
                              call: (string, map<string, V>) -> Result<R, Exception>): (run: RpcRun<R, I>)
    ensures run.response.id == id
    ensures run.dispatched <==> rpcMethod != "list_tools"
    ensures run.response.result.Some? <==> run.response.error.None?
    ensures rpcMethod == "list_tools" ==> run.response.result == Some(definitions)
    ensures run.dispatched && call(rpcMethod, ParamsOrEmpty(params)).Ok? ==>
      run.response.result == Some(call(rpcMethod, ParamsOrEmpty(params)).value)
    ensures run.dispatched && call(rpcMethod, ParamsOrEmpty(params)).Err? ==>
      run.response.error == Some(ErrorFor(call(rpcMethod, ParamsOrEmpty(params)).error))
  {
    if rpcMethod == "list_tools" then RpcRun(RpcResponse(Some(definitions), None, id), false)
    else
      match call(rpcMethod, ParamsOrEmpty(params))
      case Ok(v) => RpcRun(RpcResponse(Some(v), None, id), true)
      case Err(e) => RpcRun(RpcResponse(None, Some(ErrorFor(e)), id), true)
  }

  /** `list_tools` is answered the same whatever the registry would do with it. */
  lemma ListToolsIgnoresRegistry<R, V, I>(params: Option<map<string, V>>, id: I, definitions: R,
                                          call1: (string, map<string, V>) -> Result<R, Exception>,
                                          call2: (string, map<string, V>) -> Result<R, Exception>)
    ensures HandleRpc("list_tools", params, id, definitions, call1) == HandleRpc("list_tools", params, id, definitions, call2)
  {
  }

  /**
   * A payment the orchestrator's simulation turns down reaches the RPC caller as an
   * invalid-params error carrying the simulation's reason.
   */
  lemma SimulationRejectionResponse(toFloat: string -> Service.FloatValue, validationText: seq<Service.Issue> -> string,
                                    simulateReply: (seq<Backend.Call>, Backend.Transfer) -> Result<Backend.SimulationDict, Exception>,
                                    executeReply: (seq<Backend.Call>, Backend.Transfer) -> Result<Backend.ExecutionDict, Exception>,
                                    trace: seq<Backend.Call>, raw: Service.RawRequest, key: string, sim: Backend.SimulationDict)
    requires Service.ParsePaymentRequest(raw, toFloat).Ok?
    requires !Service.IsRawAddress(Service.ParsePaymentRequest(raw, toFloat).value.fromWalletId)
    requires simulateReply(trace, Service.TransferOf(Service.ParsePaymentRequest(raw, toFloat).value)) == Ok(sim)
    requires !Service.SimulationPassed(sim)
    ensures var run := Service.PaySpec(toFloat, validationText, simulateReply, executeReply, trace, raw, key);
      run.outcome.Err?
      && ErrorFor(run.outcome.error)
         == RpcError(InvalidParams, GuardMessage, Some("Payment simulation failed: " + Render(GetOr(sim.reason, "Unknown error"))))
  {
    Service.SimulationRejection(toFloat, validationText, simulateReply, executeReply, trace, raw, key, sim);
  }

  /**
   * The only way a payment ends in "An unexpected error occurred" is an exception raised by
   * `simulate_payment` itself, which `pay` lets through unwrapped; every failure `pay` raises on
   * its own is a `PaymentError` and carries its detail.
   */
  lemma UnexpectedPayErrorComesFromSimulation(toFloat: string -> Service.FloatValue, validationText: seq<Service.Issue> -> string,
                                              simulateReply: (seq<Backend.Call>, Backend.Transfer) -> Result<Backend.SimulationDict, Exception>,
                                              executeReply: (seq<Backend.Call>, Backend.Transfer) -> Result<Backend.ExecutionDict, Exception>,
                                              trace: seq<Backend.Call>, raw: Service.RawRequest, key: string)
    ensures var run := Service.PaySpec(toFloat, validationText, simulateReply, executeReply, trace, raw, key);
      run.outcome.Err? && ErrorFor(run.outcome.error).detail.None? ==>
        |run.calls| == 1 && run.calls[0].Simulate?
        && simulateReply(trace, run.calls[0].transfer) == Err(run.outcome.error)
  {
  }
}
