/**
 * The guarded payment orchestrator: validates the tool input, refuses wallet ids that look like
 * raw (Privy) addresses, requires a passing simulation, then executes and answers with a
 * receipt. The payment client records every call, so the order of calls can be stated.
 */
module Service {
  import opened Wrappers
  import opened PyData
  import Text
  import Backend

  /** What Python's `float(v)` makes of a string (the parsing itself is not modelled). */
  datatype FloatValue = Unparsable | Number(x: real) | NaN | Infinite(negative: bool)

  const AmountMessage := "Amount must be a valid numeric string"

  /**
   * `validate_amount`: the amount must parse and be positive. The "must be positive" error is
   * raised inside the `try` and caught by its own `except`, so both failures give the same
   * message. `float` accepts "nan" and "inf", and NaN is not `<= 0`.
   */
  function ValidateAmount(v: string, toFloat: string -> FloatValue): (r: Result<string, string>)
    ensures r.Ok? <==>
      match toFloat(v)
      case Unparsable => false
      case Number(x) => x > 0.0
      case NaN => true
      case Infinite(negative) => !negative
    ensures r.Ok? ==> r.value == v
    ensures r.Err? ==> r.error == AmountMessage
  {
    match toFloat(v)
    case Unparsable => Err(AmountMessage)
    case Number(x) => if x <= 0.0 then Err(AmountMessage) else Ok(v)
    case NaN => Ok(v)
    case Infinite(negative) => if negative then Err(AmountMessage) else Ok(v)
  }

  /** The tool input dict, field by field. */
  datatype RawRequest = RawRequest(fromWalletId: Field, toAddress: Field, amount: Field, currency: Field, destinationChain: Field)

  /** A validated `PaymentRequest`. */
  datatype PaymentRequest = PaymentRequest(
    fromWalletId: string,
    toAddress: string,
    amount: string,
    currency: string,
    destinationChain: Option<string>)

  /** One field error the request model reports. */
  datatype IssueKind = Missing | NullNotAllowed | Invalid(msg: string)
  datatype Issue = Issue(field: string, kind: IssueKind)

  /** A required `str` field: it must be present and not null. */
  function RequiredIssues(name: string, f: Field): seq<Issue> {
    match f
    case Absent => [Issue(name, Missing)]
    case Null => [Issue(name, NullNotAllowed)]
    case Str(_) => []
  }

  /** The amount: required, then the validator (which only runs on a present string). */
  function AmountIssues(f: Field, toFloat: string -> FloatValue): seq<Issue> {
    match f
    case Str(v) => (match ValidateAmount(v, toFloat) case Ok(_) => [] case Err(m) => [Issue("amount", Invalid(m))])
    case _ => RequiredIssues("amount", f)
  }

  /** `currency: str = "USD"`: may be left out, but not null. */
  function CurrencyIssues(f: Field): seq<Issue> {
    if f.Null? then [Issue("currency", NullNotAllowed)] else []
  }

  /**
   * `PaymentRequest(**request_data)`: every field error, in declaration order, or the request
   * with `currency` defaulting to "USD" and `destination_chain` to `None`.
   */
  function ParsePaymentRequest(raw: RawRequest, toFloat: string -> FloatValue): (r: Result<PaymentRequest, seq<Issue>>)
    ensures r.Ok? <==>
      raw.fromWalletId.Str? && raw.toAddress.Str? && raw.amount.Str?
      && ValidateAmount(raw.amount.s, toFloat).Ok? && !raw.currency.Null?
    ensures r.Ok? ==>
      r.value.fromWalletId == raw.fromWalletId.s && r.value.toAddress == raw.toAddress.s
      && r.value.amount == raw.amount.s
      && r.value.currency == (if raw.currency.Absent? then "USD" else raw.currency.s)
      && r.value.destinationChain == Get(raw.destinationChain)
    ensures r.Err? ==> |r.error| > 0
  {
    var issues := RequiredIssues("from_wallet_id", raw.fromWalletId) + RequiredIssues("to_address", raw.toAddress)
                  + AmountIssues(raw.amount, toFloat) + CurrencyIssues(raw.currency);
    if issues != [] then Err(issues)
    else
      Ok(PaymentRequest(raw.fromWalletId.s, raw.toAddress.s, raw.amount.s,
                        if raw.currency.Absent? then "USD" else raw.currency.s, Get(raw.destinationChain)))
  }

  /**
   * `re.match(r'^0x[a-fA-F0-9]{40}$', id)`: "0x" and exactly 40 hex digits. Python's `$` also
   * matches just before a final newline, so one trailing "\n" is let through.
   */
  predicate IsRawAddress(id: string): (r: bool)
    ensures r <==> exists digits :: AddressDigits(id, digits)
  {
    var r := (|id| == 42 || (|id| == 43 && id[42] == '\n')) && id[..2] == "0x" && Text.AllHexDigits(id[2..42]);
    assert r ==> AddressDigits(id, id[2..42]) by {
      if r {
        if |id| == 42 { assert id == "0x" + id[2..42]; }
        else { assert id == "0x" + id[2..42] + "\n"; }
      }
    }
    assert forall digits :: AddressDigits(id, digits) ==> r by {
      forall digits | AddressDigits(id, digits)
        ensures r
      {
        assert id[..2] == "0x" && id[2..42] == digits;
      }
    }
    r
  }

  /** `id` is "0x" and the 40 hex digits `digits`, with at most one final newline. */
  predicate AddressDigits(id: string, digits: string) {
    |digits| == 40 && Text.AllHexDigits(digits) && (id == "0x" + digits || id == "0x" + digits + "\n")
  }

  /** Forty hex digits after "0x" match; a 41st digit or a missing one does not. */
  lemma RawAddressExactLength(digits: string)
    requires Text.AllHexDigits(digits)
    ensures |digits| == 40 ==> IsRawAddress("0x" + digits)
    ensures |digits| == 40 ==> IsRawAddress("0x" + digits + "\n")
    ensures |digits| != 40 ==> !IsRawAddress("0x" + digits)
  {
    var id := "0x" + digits;
    if |digits| == 40 {
      assert id[2..42] == digits;
      assert (id + "\n")[..2] == "0x" && (id + "\n")[2..42] == digits;
    } else if |id| == 43 {
      assert id[42] == digits[40];
    }
  }

  /** A Circle wallet id ("wallet-...") never looks like a raw address. */
  lemma CircleWalletIdPasses(rest: string)
    ensures !IsRawAddress("wallet-" + rest)
  {
    assert ("wallet-" + rest)[..2] == "wa";
  }

  const RawAddressRejection :=
    "Autonomous payments require a Circle Wallet. Privy wallets require human interaction "
    + "and cannot be used for agent execution. Received Privy address format (0x...). "
    + "Please use a Circle wallet ID (format: wallet-...)."

  /** The arguments both client calls get. */
  function TransferOf(req: PaymentRequest): (t: Backend.Transfer)
    ensures t.fromWalletId == Some(req.fromWalletId) && t.toAddress == Some(req.toAddress)
    ensures t.amount == req.amount && t.currency == Some(req.currency) && t.destinationChain == req.destinationChain
  {
    Backend.Transfer(Some(req.fromWalletId), Some(req.toAddress), req.amount, Some(req.currency), req.destinationChain)
  }

  /** `simulation.get("status") == "success" and simulation.get("validation_passed")`. */
  predicate SimulationPassed(sim: Backend.SimulationDict) {
    Get(sim.status) == Some("success") && sim.validationPassed
  }

  /** The dict `pay` returns on success. */
  datatype PayReceipt = PayReceipt(
    status: string,
    paymentId: Option<string>,
    transferId: Option<string>,
    transactionId: Option<string>,
    blockchainTx: Option<string>,
    amount: string,
    currency: string,
    message: string,
    idempotencyKey: string)

  function BuildReceipt(req: PaymentRequest, d: Backend.ExecutionDict, idempotencyKey: string): (r: PayReceipt)
    ensures r.status == "success" && r.message == "Payment processed successfully"
    ensures r.paymentId == r.transferId == r.transactionId == Get(d.transferId)
    ensures r.blockchainTx == Get(d.txHash)
    ensures r.amount == req.amount && r.currency == req.currency && r.idempotencyKey == idempotencyKey
  {
    PayReceipt("success", Get(d.transferId), Get(d.transferId), Get(d.transferId), Get(d.txHash),
               req.amount, req.currency, "Payment processed successfully", idempotencyKey)
  }

  /** The result of one `pay` and the client calls it made, oldest first. */
  datatype PayRun = PayRun(outcome: Result<PayReceipt, Exception>, calls: seq<Backend.Call>)

  /**
   * `pay` given the client's replies (as functions of the calls made before) and the generated
   * idempotency key. `validationText` is the request model's rendering of its errors.
   */
  function PaySpec(toFloat: string -> FloatValue, validationText: seq<Issue> -> string,
                   simulateReply: (seq<Backend.Call>, Backend.Transfer) -> Result<Backend.SimulationDict, Exception>,
                   executeReply: (seq<Backend.Call>, Backend.Transfer) -> Result<Backend.ExecutionDict, Exception>,
                   trace: seq<Backend.Call>, raw: RawRequest, idempotencyKey: string): (run: PayRun)
    ensures |run.calls| <= 2
    ensures forall k :: 0 <= k < |run.calls| ==> (run.calls[k].Execute? <==> k == 1)
  {
    match ParsePaymentRequest(raw, toFloat)
    case Err(issues) => PayRun(Err(PaymentError("Invalid input: " + validationText(issues))), [])
    case Ok(req) =>
      if IsRawAddress(req.fromWalletId) then PayRun(Err(PaymentError(RawAddressRejection)), [])
      else
        var t := TransferOf(req);
        match simulateReply(trace, t)
        case Err(e) => PayRun(Err(e), [Backend.Simulate(t)])
        case Ok(sim) =>
          if !SimulationPassed(sim) then
            PayRun(Err(GuardValidationError("Payment simulation failed: " + Render(GetOr(sim.reason, "Unknown error")))),
                   [Backend.Simulate(t)])
          else
            match executeReply(trace + [Backend.Simulate(t)], t)
            case Err(e) => PayRun(Err(PaymentError("Payment execution failed: " + e.Message())), [Backend.Simulate(t), Backend.Execute(t)])
            case Ok(d) => PayRun(Ok(BuildReceipt(req, d, idempotencyKey)), [Backend.Simulate(t), Backend.Execute(t)])
  }

  /** `PaymentOrchestrator`: holds the client; `pay` has no state of its own. */
  class PaymentOrchestrator {
    const client: Backend.PaymentClient
    /** Python's `float()` on strings. */
    const toFloat: string -> FloatValue
    /** `str()` of the request model's validation error. */
    const validationText: seq<Issue> -> string

    constructor (client: Backend.PaymentClient, toFloat: string -> FloatValue, validationText: seq<Issue> -> string)
      ensures this.client == client && this.toFloat == toFloat && this.validationText == validationText
    {
      this.client := client;
      this.toFloat := toFloat;
      this.validationText := validationText;
    }

    /** `pay`, with the fresh `uuid4()` string passed in as `idempotencyKey`. */
    method Pay(raw: RawRequest, idempotencyKey: string) returns (r: Result<PayReceipt, Exception>)
      modifies client`trace
      ensures var run := PaySpec(toFloat, validationText, client.simulateReply, client.executeReply,
                                 old(client.trace), raw, idempotencyKey);
        r == run.outcome && client.trace == old(client.trace) + run.calls
    {
      var parsed := ParsePaymentRequest(raw, toFloat);
      if parsed.Err? {
        return Err(PaymentError("Invalid input: " + validationText(parsed.error)));
      }
      var req := parsed.value;
      if IsRawAddress(req.fromWalletId) {
        return Err(PaymentError(RawAddressRejection));
      }
      var t := TransferOf(req);
      var simulation := client.SimulatePayment(t);
      if simulation.Err? {
        return Err(simulation.error);
      }
      if !SimulationPassed(simulation.value) {
        return Err(GuardValidationError("Payment simulation failed: " + Render(GetOr(simulation.value.reason, "Unknown error"))));
      }
      var execution := client.ExecutePayment(t);
      if execution.Err? {
        return Err(PaymentError("Payment execution failed: " + execution.error.Message()));
      }
      return Ok(BuildReceipt(req, execution.value, idempotencyKey));
    }
  }

  /** Invalid input is reported as `PaymentError("Invalid input: ...")` before any client call. */
  lemma NoCallBeforeValidation(toFloat: string -> FloatValue, validationText: seq<Issue> -> string,
                               simulateReply: (seq<Backend.Call>, Backend.Transfer) -> Result<Backend.SimulationDict, Exception>,
                               executeReply: (seq<Backend.Call>, Backend.Transfer) -> Result<Backend.ExecutionDict, Exception>,
                               trace: seq<Backend.Call>, raw: RawRequest, key: string)
    requires ParsePaymentRequest(raw, toFloat).Err?
    ensures var run := PaySpec(toFloat, validationText, simulateReply, executeReply, trace, raw, key);
      run.calls == [] && run.outcome.Err? && run.outcome.error.PaymentError?
      && Text.StartsWith(run.outcome.error.detail, "Invalid input: ")
  {
  }

  /**
   * A wallet id that looks like a raw address is refused before simulation; every other valid
   * request is simulated first, with exactly the validated arguments.
   */
  lemma RawAddressCheckPrecedesSimulation(toFloat: string -> FloatValue, validationText: seq<Issue> -> string,
                                          simulateReply: (seq<Backend.Call>, Backend.Transfer) -> Result<Backend.SimulationDict, Exception>,
                                          executeReply: (seq<Backend.Call>, Backend.Transfer) -> Result<Backend.ExecutionDict, Exception>,
                                          trace: seq<Backend.Call>, raw: RawRequest, key: string)
    requires ParsePaymentRequest(raw, toFloat).Ok?
    ensures var req := ParsePaymentRequest(raw, toFloat).value;
      var run := PaySpec(toFloat, validationText, simulateReply, executeReply, trace, raw, key);
      (IsRawAddress(req.fromWalletId) ==> run.calls == [] && run.outcome == Err(PaymentError(RawAddressRejection)))
      && (!IsRawAddress(req.fromWalletId) ==> |run.calls| >= 1 && run.calls[0] == Backend.Simulate(TransferOf(req)))
  {
  }

  /**
   * Execution happens exactly when a valid, non-address request had a simulation that answered
   * with status "success" and a truthy `validation_passed`; it then follows that simulation.
   */
  lemma ExecuteOnlyAfterPassingSimulation(toFloat: string -> FloatValue, validationText: seq<Issue> -> string,
                                          simulateReply: (seq<Backend.Call>, Backend.Transfer) -> Result<Backend.SimulationDict, Exception>,
                                          executeReply: (seq<Backend.Call>, Backend.Transfer) -> Result<Backend.ExecutionDict, Exception>,
                                          trace: seq<Backend.Call>, raw: RawRequest, key: string)
    ensures var run := PaySpec(toFloat, validationText, simulateReply, executeReply, trace, raw, key);
      (exists k :: 0 <= k < |run.calls| && run.calls[k].Execute?) <==>
        (ParsePaymentRequest(raw, toFloat).Ok?
         && !IsRawAddress(ParsePaymentRequest(raw, toFloat).value.fromWalletId)
         && var t := TransferOf(ParsePaymentRequest(raw, toFloat).value);
            simulateReply(trace, t).Ok? && SimulationPassed(simulateReply(trace, t).value)
            && run.calls == [Backend.Simulate(t), Backend.Execute(t)])
  {
    var run := PaySpec(toFloat, validationText, simulateReply, executeReply, trace, raw, key);
    if exists k :: 0 <= k < |run.calls| && run.calls[k].Execute? {
      var k :| 0 <= k < |run.calls| && run.calls[k].Execute?;
      assert k == 1;
    }
  }

  /**
   * A simulation that does not pass raises `GuardValidationError` with the simulation's reason
   * (or "Unknown error" when the key is missing), not wrapped in `PaymentError`.
   */
  lemma SimulationRejection(toFloat: string -> FloatValue, validationText: seq<Issue> -> string,
                            simulateReply: (seq<Backend.Call>, Backend.Transfer) -> Result<Backend.SimulationDict, Exception>,
                            executeReply: (seq<Backend.Call>, Backend.Transfer) -> Result<Backend.ExecutionDict, Exception>,
                            trace: seq<Backend.Call>, raw: RawRequest, key: string, sim: Backend.SimulationDict)
    requires ParsePaymentRequest(raw, toFloat).Ok?
    requires !IsRawAddress(ParsePaymentRequest(raw, toFloat).value.fromWalletId)
    requires simulateReply(trace, TransferOf(ParsePaymentRequest(raw, toFloat).value)) == Ok(sim)
    requires !SimulationPassed(sim)
    ensures var run := PaySpec(toFloat, validationText, simulateReply, executeReply, trace, raw, key);
      run.outcome == Err(GuardValidationError("Payment simulation failed: " + Render(GetOr(sim.reason, "Unknown error"))))
      && |run.calls| == 1
    ensures sim.reason.Absent? ==>
      PaySpec(toFloat, validationText, simulateReply, executeReply, trace, raw, key).outcome
        == Err(GuardValidationError("Payment simulation failed: Unknown error"))
  {
    if sim.reason.Absent? {
      assert Render(GetOr(sim.reason, "Unknown error")) == "Unknown error";
      assert "Payment simulation failed: " + "Unknown error" == "Payment simulation failed: Unknown error";
    }
  }

  /**
   * On success the three id fields are all the execution's `transfer_id`, `blockchain_tx` is its
   * `tx_hash`, amount and currency echo the validated request, and the key is the generated one.
   */
  lemma SuccessReceiptAliases(toFloat: string -> FloatValue, validationText: seq<Issue> -> string,
                              simulateReply: (seq<Backend.Call>, Backend.Transfer) -> Result<Backend.SimulationDict, Exception>,
                              executeReply: (seq<Backend.Call>, Backend.Transfer) -> Result<Backend.ExecutionDict, Exception>,
                              trace: seq<Backend.Call>, raw: RawRequest, key: string)
    requires PaySpec(toFloat, validationText, simulateReply, executeReply, trace, raw, key).outcome.Ok?
    ensures var req := ParsePaymentRequest(raw, toFloat).value;
      var t := TransferOf(req);
      var d := executeReply(trace + [Backend.Simulate(t)], t).value;
      var receipt := PaySpec(toFloat, validationText, simulateReply, executeReply, trace, raw, key).outcome.value;
      ParsePaymentRequest(raw, toFloat).Ok? && executeReply(trace + [Backend.Simulate(t)], t).Ok?
      && receipt.status == "success"
      && receipt.paymentId == receipt.transferId == receipt.transactionId == Get(d.transferId)
      && receipt.blockchainTx == Get(d.txHash)
      && receipt.amount == raw.amount.s && receipt.currency == req.currency
      && receipt.idempotencyKey == key
  {
  }

  /** An exception raised by `execute_payment` becomes `PaymentError("Payment execution failed: ...")`. */
  lemma ExecutionFailureWrapped(toFloat: string -> FloatValue, validationText: seq<Issue> -> string,
                                simulateReply: (seq<Backend.Call>, Backend.Transfer) -> Result<Backend.SimulationDict, Exception>,
                                executeReply: (seq<Backend.Call>, Backend.Transfer) -> Result<Backend.ExecutionDict, Exception>,
                                trace: seq<Backend.Call>, raw: RawRequest, key: string, e: Exception)
    requires ParsePaymentRequest(raw, toFloat).Ok?
    requires !IsRawAddress(ParsePaymentRequest(raw, toFloat).value.fromWalletId)
    requires var t := TransferOf(ParsePaymentRequest(raw, toFloat).value);
      simulateReply(trace, t).Ok? && SimulationPassed(simulateReply(trace, t).value)
      && executeReply(trace + [Backend.Simulate(t)], t) == Err(e)
    ensures PaySpec(toFloat, validationText, simulateReply, executeReply, trace, raw, key).outcome
      == Err(PaymentError("Payment execution failed: " + e.Message()))
  {
  }

  /** A negative amount is refused up front, with the message for a non-numeric one. */
  lemma NegativeAmountRefused(toFloat: string -> FloatValue, raw: RawRequest, x: real)
    requires raw.amount.Str? && toFloat(raw.amount.s) == Number(x) && x <= 0.0
    ensures ParsePaymentRequest(raw, toFloat).Err?
    ensures ValidateAmount(raw.amount.s, toFloat) == Err(AmountMessage)
  {
  }

  /** "nan" and "inf" pass the amount check, since `float` accepts them and NaN is not `<= 0`. */
  lemma NonFiniteAmountsAccepted(toFloat: string -> FloatValue, v: string)
    requires toFloat(v) == NaN || toFloat(v) == Infinite(false)
    ensures ValidateAmount(v, toFloat) == Ok(v)
  {
  }
}
