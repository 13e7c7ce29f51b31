/**
 * The payment client as its two callers (the guarded orchestrator and the x402 adapter) see it:
 * an object whose `simulate_payment` and `execute_payment` calls are recorded in a trace, and
 * whose replies are whatever the remote service answers, given here as functions of the calls
 * made so far and of the call's arguments.
 */
module Backend {
  import opened Wrappers
  import opened PyData

  /** The keyword arguments of one `simulate_payment` or `execute_payment` call. */
  datatype Transfer = Transfer(
    fromWalletId: Option<string>,
    toAddress: Option<string>,
    amount: string,
    currency: Option<string>,
    destinationChain: Option<string>)

  datatype Call = Simulate(transfer: Transfer) | Execute(transfer: Transfer)

  /**
   * The dict `simulate_payment` returns. `validationPassed` is the truthiness of its
   * `validation_passed` value.
   */
  datatype SimulationDict = SimulationDict(status: Field, validationPassed: bool, estimatedFee: Field, reason: Field)

  /** The dict `execute_payment` returns. */
  datatype ExecutionDict = ExecutionDict(transferId: Field, status: Field, txHash: Field, amount: Field)

  class PaymentClient {
    /** Every call made on this client, oldest first. */
    var trace: seq<Call>
    const simulateReply: (seq<Call>, Transfer) -> Result<SimulationDict, Exception>
    const executeReply: (seq<Call>, Transfer) -> Result<ExecutionDict, Exception>

    constructor (
      simulateReply: (seq<Call>, Transfer) -> Result<SimulationDict, Exception>,
      executeReply: (seq<Call>, Transfer) -> Result<ExecutionDict, Exception>)
      ensures trace == []
      ensures this.simulateReply == simulateReply && this.executeReply == executeReply
    {
      trace := [];
      this.simulateReply := simulateReply;
      this.executeReply := executeReply;
    }

    /** `await client.simulate_payment(...)`: the reply dict, or the exception it raises. */
    method SimulatePayment(t: Transfer) returns (r: Result<SimulationDict, Exception>)
      modifies this`trace
      ensures trace == old(trace) + [Simulate(t)]
      ensures r == simulateReply(old(trace), t)
    {
      r := simulateReply(trace, t);
      trace := trace + [Simulate(t)];
    }

    /** `await client.execute_payment(...)`: the reply dict, or the exception it raises. */
    method ExecutePayment(t: Transfer) returns (r: Result<ExecutionDict, Exception>)
      modifies this`trace
      ensures trace == old(trace) + [Execute(t)]
      ensures r == executeReply(old(trace), t)
    {
      r := executeReply(trace, t);
      trace := trace + [Execute(t)];
    }
  }
}
