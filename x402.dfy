/**
 * The x402 gasless-payment adapter: a signed payment intent is checked (signature, then
 * expiry, then nonce replay), executed through the payment client, and answered with a receipt.
 * EIP-712 encoding and signer recovery and SHA-256 are the adapter's configuration, given as
 * functions: the model does not look inside them.
 */
module X402 {
  import opened Wrappers
  import opened PyData
  import Text
  import Backend

  /** The EIP-712 domain the intent is signed under (the ARC testnet). */
  const DomainName := "OmniAgentPay"
  const DomainVersion := "1"
  const ChainId := 5042002
  const PrimaryType := "X402Intent"

  /** Nonces older than one hour are swept. */
  const NonceMaxAgeSeconds: real := 3600.0
  /** The sweep runs once every 1000 registrations. */
  const CleanupEvery: nat := 1000
  const ExplorerTxPrefix := "https://testnet.arcscan.app/tx/"
  const FailurePrefix := "X402 execution failed: "

  /**
   * A signed intent as a dict. `amount` is held as its `str()`; `expiresAt` is absent, null or
   * an integer timestamp in seconds.
   */
  datatype Intent = Intent(
    intentId: Field,
    fromAgent: Field,
    to: Field,
    amount: Field,
    currency: Field,
    expiresAt: Option<int>,
    nonce: Field,
    signature: Field)

  /** The `message` part of the typed data that is signed. */
  datatype IntentMessage = IntentMessage(
    intentId: Option<string>,
    fromAgent: Option<string>,
    to: Option<string>,
    amount: string,
    currency: Option<string>,
    expiresAt: Option<int>,
    nonce: Option<string>)

  datatype TypedData = TypedData(domainName: string, domainVersion: string, chainId: int, primaryType: string, message: IntentMessage)

  /** The outcome of one check: passes, or raises `PaymentError(msg)`. */
  datatype Check = Pass | Fail(msg: string)

  /** The typed data built from an intent: everything but the signature. */
  function SignedPayload(i: Intent): (d: TypedData)
    ensures d.domainName == DomainName && d.domainVersion == DomainVersion && d.chainId == ChainId
    ensures d.primaryType == PrimaryType
    ensures d.message.intentId == Get(i.intentId)
    ensures d.message.fromAgent == Get(i.fromAgent)
    ensures d.message.to == Get(i.to)
    ensures d.message.amount == Render(Get(i.amount))
    ensures d.message.currency == GetOr(i.currency, "USD")
    ensures d.message.expiresAt == i.expiresAt
    ensures d.message.nonce == Get(i.nonce)
  {
    TypedData(DomainName, DomainVersion, ChainId, PrimaryType,
      IntentMessage(Get(i.intentId), Get(i.fromAgent), Get(i.to), Render(Get(i.amount)),
                    GetOr(i.currency, "USD"), i.expiresAt, Get(i.nonce)))
  }

  /**
   * `_verify_signature`. `recover` stands for encoding the typed data and recovering the signer
   * address, failing with an error message. Every failure after the missing-signature test,
   * the signer mismatch included, is re-raised as "Signature verification failed: ...".
   */
  function VerifySignature(i: Intent, signingAddress: Option<string>, recover: (TypedData, string) -> Result<string, string>): (c: Check)
    ensures !Truthy(Get(i.signature)) ==> c == Fail("Missing signature in intent")
    ensures Truthy(Get(i.signature)) ==>
      match recover(SignedPayload(i), i.signature.s)
      case Err(m) => c == Fail("Signature verification failed: " + m)
      case Ok(signer) =>
        (c == Pass <==> (!Truthy(signingAddress) || Text.Lower(signer) == Text.Lower(signingAddress.value)))
        && (c.Fail? ==> c.msg == "Signature verification failed: Invalid signer: expected "
                                 + signingAddress.value + ", got " + signer)
  {
    if !Truthy(Get(i.signature)) then Fail("Missing signature in intent")
    else
      match recover(SignedPayload(i), i.signature.s)
      case Err(m) => Fail("Signature verification failed: " + m)
      case Ok(signer) =>
        if Truthy(signingAddress) && Text.Lower(signer) != Text.Lower(signingAddress.value) then
          Fail("Signature verification failed: Invalid signer: expected " + signingAddress.value + ", got " + signer)
        else Pass
  }

  /** `int(x)` of a float: truncation toward zero. */
  function Trunc(x: real): (n: int)
    ensures x >= 0.0 ==> n as real <= x < n as real + 1.0
    ensures x < 0.0 ==> n as real - 1.0 < x <= n as real
  {
    if x >= 0.0 then x.Floor else -((-x).Floor)
  }

  /** `_validate_expiry` at time `now`: missing or zero is refused; expired means strictly later. */
  function ValidateExpiry(i: Intent, now: real): (c: Check)
    ensures (i.expiresAt.None? || i.expiresAt == Some(0)) ==> c == Fail("Missing expiresAt in intent")
    ensures i.expiresAt.Some? && i.expiresAt.value != 0 ==>
      (c == Pass <==> Trunc(now) <= i.expiresAt.value)
    ensures c.Fail? && i.expiresAt.Some? && i.expiresAt.value != 0 ==>
      c.msg == "Intent expired at " + Text.IntToString(i.expiresAt.value) + ", current time " + Text.IntToString(Trunc(now))
  {
    if i.expiresAt.None? || i.expiresAt == Some(0) then Fail("Missing expiresAt in intent")
    else if Trunc(now) > i.expiresAt.value then
      Fail("Intent expired at " + Text.IntToString(i.expiresAt.value) + ", current time " + Text.IntToString(Trunc(now)))
    else Pass
  }

  /** At the very second of expiry the intent is still accepted; one second later it is not. */
  lemma ExpiryBoundary(i: Intent, e: int)
    requires i.expiresAt == Some(e) && e > 0
    ensures ValidateExpiry(i, e as real) == Pass
    ensures ValidateExpiry(i, e as real + 1.0).Fail?
  {
    assert Trunc(e as real) == e;
    assert Trunc(e as real + 1.0) == e + 1;
  }

  /** The sweep: exactly the nonces registered at most an hour before `now` survive. */
  function Sweep(cache: map<string, real>, now: real): (r: map<string, real>)
    ensures forall n :: n in r <==> (n in cache && now - cache[n] <= NonceMaxAgeSeconds)
    ensures forall n :: n in r ==> r[n] == cache[n]
  {
    map n | n in cache && now - cache[n] <= NonceMaxAgeSeconds :: cache[n]
  }

  /** The adapter's replay-protection state. */
  datatype NonceState = NonceState(cache: map<string, real>, counter: nat)

  /**
   * `_check_nonce_replay` at time `now`: a missing nonce and a cached nonce are refused and
   * change nothing; a fresh one is registered at `now` and the counter goes up, every 1000th
   * registration sweeping the cache and resetting the counter.
   */
  function CheckNonce(s: NonceState, nonce: Field, now: real): (r: (Check, NonceState))
    ensures !Truthy(Get(nonce)) ==> r == (Fail("Missing nonce in intent"), s)
    ensures Truthy(Get(nonce)) && nonce.s in s.cache ==>
      r == (Fail("Nonce " + nonce.s + " already used - replay attack prevented"), s)
    ensures Truthy(Get(nonce)) && nonce.s !in s.cache ==>
      r.0 == Pass && nonce.s in r.1.cache && r.1.cache[nonce.s] == now && r.1.counter < CleanupEvery
    ensures Truthy(Get(nonce)) && nonce.s !in s.cache && s.counter + 1 < CleanupEvery ==>
      r.1 == NonceState(s.cache[nonce.s := now], s.counter + 1)
    ensures Truthy(Get(nonce)) && nonce.s !in s.cache && s.counter + 1 >= CleanupEvery ==>
      r.1 == NonceState(Sweep(s.cache[nonce.s := now], now), 0)
  {
    if !Truthy(Get(nonce)) then (Fail("Missing nonce in intent"), s)
    else if nonce.s in s.cache then (Fail("Nonce " + nonce.s + " already used - replay attack prevented"), s)
    else
      var cache := s.cache[nonce.s := now];
      if s.counter + 1 >= CleanupEvery then (Pass, NonceState(Sweep(cache, now), 0))
      else (Pass, NonceState(cache, s.counter + 1))
  }

  /** The string `_compute_intent_hash` hashes: five fields, `str()`-rendered, joined by ':'. */
  function IntentString(i: Intent): (r: string)
    ensures r == Text.Join([Render(Get(i.intentId)), Render(Get(i.fromAgent)), Render(Get(i.to)),
                            Render(Get(i.amount)), Render(Get(i.nonce))], ':')
  {
    var parts := [Render(Get(i.intentId)), Render(Get(i.fromAgent)), Render(Get(i.to)), Render(Get(i.amount)), Render(Get(i.nonce))];
    assert Text.Join(parts[4..], ':') == parts[4];
    assert Text.Join(parts[3..], ':') == parts[3] + ":" + parts[4] by { assert parts[3..][1..] == parts[4..]; }
    assert Text.Join(parts[2..], ':') == parts[2] + ":" + parts[3] + ":" + parts[4] by { assert parts[2..][1..] == parts[3..]; }
    assert Text.Join(parts[1..], ':') == parts[1] + ":" + parts[2] + ":" + parts[3] + ":" + parts[4] by { assert parts[1..][1..] == parts[2..]; }
    Render(Get(i.intentId)) + ":" + Render(Get(i.fromAgent)) + ":" + Render(Get(i.to)) + ":"
    + Render(Get(i.amount)) + ":" + Render(Get(i.nonce))
  }

  /** When no field holds ':', the five rendered fields can be read back from the string. */
  lemma IntentStringFields(i: Intent)
    requires forall f | f in [i.intentId, i.fromAgent, i.to, i.amount, i.nonce] :: ':' !in Render(Get(f))
    ensures Text.Split(IntentString(i), ':') ==
      [Render(Get(i.intentId)), Render(Get(i.fromAgent)), Render(Get(i.to)), Render(Get(i.amount)), Render(Get(i.nonce))]
  {
    var parts := [Render(Get(i.intentId)), Render(Get(i.fromAgent)), Render(Get(i.to)), Render(Get(i.amount)), Render(Get(i.nonce))];
    assert forall k :: 0 <= k < |parts| ==> ':' !in parts[k] by {
      assert i.intentId in [i.intentId, i.fromAgent, i.to, i.amount, i.nonce];
      assert i.fromAgent in [i.intentId, i.fromAgent, i.to, i.amount, i.nonce];
      assert i.to in [i.intentId, i.fromAgent, i.to, i.amount, i.nonce];
      assert i.amount in [i.intentId, i.fromAgent, i.to, i.amount, i.nonce];
      assert i.nonce in [i.intentId, i.fromAgent, i.to, i.amount, i.nonce];
    }
    Text.SplitJoin(parts, ':');
  }

  /** Two intents whose fields (colon-free) differ somewhere give different strings to hash. */
  lemma IntentStringDistinguishes(i: Intent, j: Intent)
    requires forall f | f in [i.intentId, i.fromAgent, i.to, i.amount, i.nonce] :: ':' !in Render(Get(f))
    requires forall f | f in [j.intentId, j.fromAgent, j.to, j.amount, j.nonce] :: ':' !in Render(Get(f))
    requires [Render(Get(i.intentId)), Render(Get(i.fromAgent)), Render(Get(i.to)), Render(Get(i.amount)), Render(Get(i.nonce))]
          != [Render(Get(j.intentId)), Render(Get(j.fromAgent)), Render(Get(j.to)), Render(Get(j.amount)), Render(Get(j.nonce))]
    ensures IntentString(i) != IntentString(j)
  {
    IntentStringFields(i);
    IntentStringFields(j);
  }

  /** A ':' inside a field lets two different intents share a fingerprint. */
  lemma ColonCollision()
    ensures var i := Intent(Str("a:b"), Str("c"), Str("d"), Str("1"), Absent, None, Str("n"), Absent);
      var j := Intent(Str("a"), Str("b:c"), Str("d"), Str("1"), Absent, None, Str("n"), Absent);
      i != j && IntentString(i) == IntentString(j)
  {
  }

  /** A missing field and the string "None" render alike. */
  lemma AbsentRendersAsNone(i: Intent)
    ensures IntentString(i.(intentId := Absent)) == IntentString(i.(intentId := Str("None")))
  {
  }

  /** The receipt `execute_intent` returns on success. */
  datatype Receipt = Receipt(
    status: string,
    intentId: Option<string>,
    intentHash: string,
    txHash: Option<string>,
    explorerUrl: string,
    amount: string,
    currency: Option<string>,
    from: Option<string>,
    to: Option<string>,
    mode: string,
    message: string)

  /** The `execute_payment` call an intent makes. */
  function TransferOf(i: Intent): (t: Backend.Transfer)
    ensures t.fromWalletId == Get(i.fromAgent) && t.toAddress == Get(i.to)
    ensures t.amount == Render(Get(i.amount)) && t.currency == GetOr(i.currency, "USD")
    ensures t.destinationChain.None?
  {
    Backend.Transfer(Get(i.fromAgent), Get(i.to), Render(Get(i.amount)), GetOr(i.currency, "USD"), None)
  }

  function BuildReceipt(i: Intent, fingerprint: string, d: Backend.ExecutionDict): (r: Receipt)
    ensures r.status == "success" && r.mode == "x402"
    ensures r.txHash == GetOr(d.transferId, "")
    ensures r.explorerUrl == ExplorerTxPrefix + Render(r.txHash)
    ensures r.intentId == Get(i.intentId) && r.intentHash == fingerprint
    ensures r.amount == Render(Get(i.amount)) && r.currency == GetOr(i.currency, "USD")
    ensures r.from == Get(i.fromAgent) && r.to == Get(i.to)
    ensures r.message == "X402 gasless payment executed successfully"
  {
    var txHash := GetOr(d.transferId, "");
    Receipt("success", Get(i.intentId), fingerprint, txHash, ExplorerTxPrefix + Render(txHash),
            Render(Get(i.amount)), GetOr(i.currency, "USD"), Get(i.fromAgent), Get(i.to),
            "x402", "X402 gasless payment executed successfully")
  }

  /** Everything `execute_intent` decides: the result, the new nonce state, whether it executed. */
  datatype IntentRun = IntentRun(outcome: Result<Receipt, Exception>, state: NonceState, executed: bool)

  /** The checks of `execute_intent`, in order, up to the nonce registration. */
  function Checks(signingAddress: Option<string>, recover: (TypedData, string) -> Result<string, string>,
                  s: NonceState, i: Intent, now: real): (r: (Check, NonceState))
  {
    var sig := VerifySignature(i, signingAddress, recover);
    if sig.Fail? then (sig, s)
    else
      var expiry := ValidateExpiry(i, now);
      if expiry.Fail? then (expiry, s)
      else CheckNonce(s, i.nonce, now)
  }

  /**
   * `execute_intent` given what `execute_payment` would answer. A failed check or a failed
   * execution is re-raised as `PaymentError("X402 execution failed: ...")`.
   */
  function IntentOutcome(signingAddress: Option<string>, recover: (TypedData, string) -> Result<string, string>,
                         sha256Hex: string -> string, s: NonceState, i: Intent, now: real,
                         reply: Result<Backend.ExecutionDict, Exception>): (r: IntentRun)
    ensures r.outcome.Err? ==>
      r.outcome.error.PaymentError? && Text.StartsWith(r.outcome.error.detail, FailurePrefix)
    ensures r.executed <==> Checks(signingAddress, recover, s, i, now).0 == Pass
    ensures r.state == Checks(signingAddress, recover, s, i, now).1
  {
    var (c, s') := Checks(signingAddress, recover, s, i, now);
    if c.Fail? then IntentRun(Err(PaymentError(FailurePrefix + c.msg)), s', false)
    else
      match reply
      case Err(e) => IntentRun(Err(PaymentError(FailurePrefix + e.Message())), s', true)
      case Ok(d) => IntentRun(Ok(BuildReceipt(i, sha256Hex(IntentString(i)), d)), s', true)
  }

  /**
   * Execution happens only when the signature, the expiry and the nonce all pass; a signature
   * or expiry failure leaves the nonce state as it was and reports that failure.
   */
  lemma ExecuteOnlyAfterAllChecks(signingAddress: Option<string>, recover: (TypedData, string) -> Result<string, string>,
                                  sha256Hex: string -> string, s: NonceState, i: Intent, now: real,
                                  reply: Result<Backend.ExecutionDict, Exception>)
    ensures var r := IntentOutcome(signingAddress, recover, sha256Hex, s, i, now, reply);
      r.executed <==>
        (VerifySignature(i, signingAddress, recover) == Pass && ValidateExpiry(i, now) == Pass
         && CheckNonce(s, i.nonce, now).0 == Pass)
    ensures var r := IntentOutcome(signingAddress, recover, sha256Hex, s, i, now, reply);
      VerifySignature(i, signingAddress, recover).Fail? ==>
        r.state == s && r.outcome == Err(PaymentError(FailurePrefix + VerifySignature(i, signingAddress, recover).msg))
    ensures var r := IntentOutcome(signingAddress, recover, sha256Hex, s, i, now, reply);
      VerifySignature(i, signingAddress, recover) == Pass && ValidateExpiry(i, now).Fail? ==>
        r.state == s && r.outcome == Err(PaymentError(FailurePrefix + ValidateExpiry(i, now).msg))
  {
  }

  /** An execution that raises after the nonce was registered leaves the nonce consumed. */
  lemma ExecutionFailureConsumesNonce(signingAddress: Option<string>, recover: (TypedData, string) -> Result<string, string>,
                                      sha256Hex: string -> string, s: NonceState, i: Intent, now: real, e: Exception)
    requires Checks(signingAddress, recover, s, i, now).0 == Pass
    ensures var r := IntentOutcome(signingAddress, recover, sha256Hex, s, i, now, Err(e));
      r.outcome == Err(PaymentError(FailurePrefix + e.Message()))
      && i.nonce.Str? && i.nonce.s in r.state.cache && i.nonce.s !in s.cache
  {
  }

  /** A successful run answers with the receipt built from the intent and the execution reply. */
  lemma SuccessReceipt(signingAddress: Option<string>, recover: (TypedData, string) -> Result<string, string>,
                       sha256Hex: string -> string, s: NonceState, i: Intent, now: real, d: Backend.ExecutionDict)
    requires Checks(signingAddress, recover, s, i, now).0 == Pass
    ensures var r := IntentOutcome(signingAddress, recover, sha256Hex, s, i, now, Ok(d));
      r.outcome.Ok?
      && r.outcome.value.status == "success" && r.outcome.value.mode == "x402"
      && r.outcome.value.intentHash == sha256Hex(IntentString(i))
      && r.outcome.value.txHash == GetOr(d.transferId, "")
      && r.outcome.value.explorerUrl == ExplorerTxPrefix + Render(GetOr(d.transferId, ""))
      && r.outcome.value.currency == GetOr(i.currency, "USD")
      && r.outcome.value.amount == Render(Get(i.amount))
      && r.outcome.value.intentId == Get(i.intentId)
      && r.outcome.value.from == Get(i.fromAgent) && r.outcome.value.to == Get(i.to)
      && r.outcome.value.message == "X402 gasless payment executed successfully"
  {
  }

  /**
   * At most one execution per nonce: once an intent has executed, any intent carrying the same
   * nonce, presented at any time afterwards, executes nothing and changes no state; when its
   * signature and expiry pass, it is refused as a replay.
   */
  lemma ReplayRejected(signingAddress: Option<string>, recover: (TypedData, string) -> Result<string, string>,
                       sha256Hex: string -> string, s: NonceState, i: Intent, j: Intent, now: real, later: real,
                       reply: Result<Backend.ExecutionDict, Exception>, reply2: Result<Backend.ExecutionDict, Exception>)
    requires IntentOutcome(signingAddress, recover, sha256Hex, s, i, now, reply).executed
    requires j.nonce == i.nonce
    ensures var first := IntentOutcome(signingAddress, recover, sha256Hex, s, i, now, reply);
      var second := IntentOutcome(signingAddress, recover, sha256Hex, first.state, j, later, reply2);
      !second.executed && second.state == first.state
      && (VerifySignature(j, signingAddress, recover) == Pass && ValidateExpiry(j, later) == Pass ==>
            second.outcome == Err(PaymentError(FailurePrefix + "Nonce " + i.nonce.s + " already used - replay attack prevented")))
  {
    var first := IntentOutcome(signingAddress, recover, sha256Hex, s, i, now, reply);
    assert VerifySignature(i, signingAddress, recover) == Pass;
    assert ValidateExpiry(i, now) == Pass;
    assert CheckNonce(s, i.nonce, now).0 == Pass;
    assert i.nonce.s in first.state.cache;
    var msg := "Nonce " + i.nonce.s + " already used - replay attack prevented";
    assert CheckNonce(first.state, j.nonce, later) == (Fail(msg), first.state);
    assert FailurePrefix + msg == FailurePrefix + "Nonce " + i.nonce.s + " already used - replay attack prevented";
  }

  /**
   * The fingerprint depends on the five hashed fields only: the currency, the expiry and the
   * signature do not change it.
   */
  lemma FingerprintIgnoresUnhashedFields(sha256Hex: string -> string, i: Intent, currency: Field, expiresAt: Option<int>, signature: Field)
    ensures sha256Hex(IntentString(i.(currency := currency, expiresAt := expiresAt, signature := signature)))
         == sha256Hex(IntentString(i))
  {
  }

  /** A configured signer is matched regardless of letter case. */
  lemma SignerMatchIgnoresCase(i: Intent, signingAddress: string, recover: (TypedData, string) -> Result<string, string>)
    requires Truthy(Get(i.signature)) && signingAddress != ""
    requires recover(SignedPayload(i), i.signature.s) == Ok(Text.Lower(signingAddress))
    ensures VerifySignature(i, Some(signingAddress), recover) == Pass
  {
    Text.LowerIdempotent(signingAddress);
  }

  /** Without a configured signer any recovered address is accepted. */
  lemma NoSignerAcceptsAnyRecovery(i: Intent, recover: (TypedData, string) -> Result<string, string>, signer: string)
    requires Truthy(Get(i.signature)) && recover(SignedPayload(i), i.signature.s) == Ok(signer)
    ensures VerifySignature(i, None, recover) == Pass && VerifySignature(i, Some(""), recover) == Pass
  {
  }

  /** A nonce swept for age is accepted again. */
  lemma SweptNonceAcceptedAgain(s: NonceState, n: string, swept: real, now: real)
    requires n in s.cache && swept - s.cache[n] > NonceMaxAgeSeconds
    requires n != ""
    ensures CheckNonce(s.(cache := Sweep(s.cache, swept)), Str(n), now).0 == Pass
  {
  }

  /** `X402Adapter`, with its nonce cache and cleanup counter. */
  class X402Adapter {
    const client: Backend.PaymentClient
    const signingAddress: Option<string>
    /** EIP-712 encoding plus `Account.recover_message`. */
    const recover: (TypedData, string) -> Result<string, string>
    /** `hashlib.sha256(s.encode()).hexdigest()`. */
    const sha256Hex: string -> string
    var nonceCache: map<string, real>
    var cleanupCounter: nat

    function State(): NonceState
      reads this
    {
      NonceState(nonceCache, cleanupCounter)
    }

    constructor (client: Backend.PaymentClient, signingAddress: Option<string>,
                 recover: (TypedData, string) -> Result<string, string>, sha256Hex: string -> string)
      ensures this.client == client && this.signingAddress == signingAddress
      ensures this.recover == recover && this.sha256Hex == sha256Hex
      ensures nonceCache == map[] && cleanupCounter == 0
    {
      this.client := client;
      this.signingAddress := signingAddress;
      this.recover := recover;
      this.sha256Hex := sha256Hex;
      nonceCache := map[];
      cleanupCounter := 0;
    }

    /** `_cleanup_old_nonces`: collects the expired nonces, then deletes them one by one. */
    method CleanupOldNonces(now: real)
      modifies this`nonceCache
      ensures nonceCache == Sweep(old(nonceCache), now)
    {
      var expired := set n | n in nonceCache && now - nonceCache[n] > NonceMaxAgeSeconds;
      ghost var start := nonceCache;
      while expired != {}
        invariant expired <= start.Keys
        invariant forall n :: n in expired ==> now - start[n] > NonceMaxAgeSeconds
        invariant nonceCache.Keys <= start.Keys
        invariant forall n :: n in nonceCache ==> nonceCache[n] == start[n]
        invariant forall n :: n in start ==> (n in nonceCache <==> (now - start[n] <= NonceMaxAgeSeconds || n in expired))
        decreases expired
      {
        var n :| n in expired;
        nonceCache := nonceCache - {n};
        expired := expired - {n};
      }
    }

    /** `_check_nonce_replay` at time `now`. */
    method CheckNonceReplay(nonce: Field, now: real) returns (c: Check)
      modifies this`nonceCache, this`cleanupCounter
      ensures (c, State()) == CheckNonce(old(State()), nonce, now)
    {
      if !Truthy(Get(nonce)) {
        return Fail("Missing nonce in intent");
      }
      if nonce.s in nonceCache {
        return Fail("Nonce " + nonce.s + " already used - replay attack prevented");
      }
      nonceCache := nonceCache[nonce.s := now];
      cleanupCounter := cleanupCounter + 1;
      if cleanupCounter >= CleanupEvery {
        CleanupOldNonces(now);
        cleanupCounter := 0;
      }
      return Pass;
    }

    /**
     * `execute_intent` at time `now`: the three checks in order, then the payment through the
     * client (recorded in its trace), then the receipt.
     */
    method ExecuteIntent(intent: Intent, now: real) returns (outcome: Result<Receipt, Exception>)
      modifies this`nonceCache, this`cleanupCounter, client`trace
      ensures var r := IntentOutcome(signingAddress, recover, sha256Hex, old(State()), intent, now,
                                     client.executeReply(old(client.trace), TransferOf(intent)));
        outcome == r.outcome && State() == r.state
        && client.trace == old(client.trace) + (if r.executed then [Backend.Execute(TransferOf(intent))] else [])
    {
      var sig := VerifySignature(intent, signingAddress, recover);
      if sig.Fail? {
        return Err(PaymentError(FailurePrefix + sig.msg));
      }
      var expiry := ValidateExpiry(intent, now);
      if expiry.Fail? {
        return Err(PaymentError(FailurePrefix + expiry.msg));
      }
      var registered := CheckNonceReplay(intent.nonce, now);
      if registered.Fail? {
        return Err(PaymentError(FailurePrefix + registered.msg));
      }
      var reply := client.ExecutePayment(TransferOf(intent));
      match reply
      case Err(e) =>
        return Err(PaymentError(FailurePrefix + e.Message()));
      case Ok(d) =>
        var fingerprint := sha256Hex(IntentString(intent));
        return Ok(BuildReceipt(intent, fingerprint, d));
    }
  }
}
