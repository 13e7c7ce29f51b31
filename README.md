# OmniAgentPay MCP server: a Dafny model of its guard logic

This project models the parts of the OmniAgentPay MCP server that decide whether a request or
a payment goes through, and proves properties of them:

- **Abuse tracker** (`RateLimit`, `rate_limit.dfy`). It works out which client IP and which user
  a request is charged to. It keeps the process-wide failure counters per IP and per user, with
  a 15-minute window and an automatic block at 50 failures. It also covers the explicit block,
  its deferred unblock, and what the abuse middleware and the rate-limit handler do with a
  request. The tracker is a class with two maps that its methods update in place.
- **x402 adapter** (`X402`, `x402.dfy`). A signed payment intent is checked in a fixed order:
  signer, then expiry, then nonce replay. It is then executed through the payment client and
  answered with a receipt. The adapter is a class holding the nonce cache and the cleanup
  counter; the sweep of old nonces is a loop over the cache.
- **Guarded payment orchestrator** (`Service`, `service.dfy`). It validates the tool input,
  refuses wallet ids that look like raw addresses, and requires a passing simulation before it
  executes. The payment client (`Backend`, `backend.dfy`) records every call in a trace, so the
  order of calls can be stated.
- **SDK wrapper helpers** (`OmniClient`, `omni_client.dfy`):
  - the network choice and the entity-secret acceptance;
  - the result dicts of simulate and execute;
  - the balance pre-check before a payment intent, and the split of `purpose` out of the intent
    metadata;
  - the wallet-balance formatting and its "no USDC" fallback.
- **Setup script helpers** (`SetupWallet`, `setup_wallet.dfy`). These are the entity-secret
  check and the `.env` text update that records the new agent wallet id. The update is a spec
  function, and a method with the script's loop is proved against it.
- **RPC outcome classification** (`Router`, `router.dfy`). A tool call's exception becomes a
  JSON-RPC 2.0 error object, using the codes of section 5.1 of the JSON-RPC 2.0 specification.
  `list_tools` is answered from the tool definitions.

Shared modules:

- `Wrappers` holds `Option` and `Result`.
- `PyData` holds Python dict fields (absent, `None` or a string), f-string rendering,
  truthiness, and the exception kinds the server raises.
- `Text` holds the string operations the code relies on, such as `split`, `join`, `strip` and
  `lower`, with their lemmas.

Time, random ids and anything computed outside this code are passed in as parameters. That
covers `time.time()`, `uuid4()`, `float()`, `int(s, 16)`, `Decimal()`, EIP-712 signer recovery,
SHA-256, the SDK's replies and the tool registry.

Where the code and its documentation disagree, the model follows the code. Four cases matter:

- The RPC endpoint answers a failed tool call with an ordinary (HTTP 200) response. So the abuse
  middleware, which only counts responses of status 400 or more, never counts payment failures.
- A simulation rejection reaches the caller as `GuardValidationError`. Because the SDK wrapper
  always stores a `reason` key, a rejection without an SDK reason reads "None", not
  "Unknown error".
- `validate_amount` catches its own "Amount must be positive" error. So a non-positive amount
  gets the same message as a non-numeric one, and `float` lets "nan" and "inf" through.
- The raw-address pattern is applied with `re.match`. There `$` also matches before one final
  newline, so an address followed by "\n" is refused too.

The exception classes are defined in `app/utils/exceptions`, which is not part of this model.
The model takes `GuardValidationError` to be a subclass of `PaymentError`. The router's order of
`except` clauses and its use of `e.detail` on both point that way.

## Model

| member | source | states |
|---|---|---|
| RateLimit.GetUserId | mcp-server/app/core/rate_limit.py:29-31 | there is no user exactly when both user headers are absent or empty; a non-empty `X-Privy-User-Id` wins; any user returned is non-empty and comes from one of the two headers |
| RateLimit.GetClientIp | mcp-server/app/core/rate_limit.py:34-39 | with no `X-Forwarded-For` (or an empty one) the result is the peer address; otherwise it holds no comma and is the left-most comma-separated entry, with only whitespace cut from either side |
| RateLimit.FailureStep | mcp-server/app/core/rate_limit.py:51-66 | a fresh key starts at count 1, first seen now, unblocked; more than 900 s after the window opened the count restarts at 1; otherwise it goes up by one; the entry is blocked iff it was blocked or the count reached 50; an entry without `first_seen` faults |
| RateLimit.Track | mcp-server/app/core/rate_limit.py:42-85 | the IP entry is always charged; the user entry only when there is a user; an IP fault changes nothing; a user fault keeps the IP update; every other key of both maps is unchanged |
| RateLimit.BlockStatus | mcp-server/app/core/rate_limit.py:97-113 | blocked iff the IP entry is blocked or (with a user) the user entry is; the IP reason wins; the user reason otherwise; `(false, None)` when not blocked |
| RateLimit.AbuseTracker.IsBlocked | mcp-server/app/core/rate_limit.py:97-113 | a read of the tracker that changes nothing: blocked iff the IP entry is blocked or (with a user) the user entry is; the IP reason when the IP is blocked, the user reason otherwise; no reason when not blocked |
| RateLimit.BlockedEntry | mcp-server/app/core/rate_limit.py:121-128 | an explicit block sets the flag, keeps an existing count and `first_seen`, and creates a missing entry with count 0 and no `first_seen` |
| RateLimit.Unblocked | mcp-server/app/core/rate_limit.py:134-139 | the unblock clears the flag of an existing entry, keeps its count, creates no entry and leaves every other key alone |
| RateLimit.AbuseTracker.constructor | mcp-server/app/core/rate_limit.py:20-23 | the tracker starts with both maps empty |
| RateLimit.AbuseTracker.TrackFailedRequest | mcp-server/app/core/rate_limit.py:42-94 | the new maps and the fault are those of `Track` on the old maps |
| RateLimit.AbuseTracker.BlockClient | mcp-server/app/core/rate_limit.py:116-139 | the IP entry, and the user entry when there is a user, become `BlockedEntry` of the old one; the other map stays; the returned unblock captures the IP, the user and the duration |
| RateLimit.AbuseTracker.RunUnblock | mcp-server/app/core/rate_limit.py:134-139 | the IP map, and the user map when a user was captured, become `Unblocked` of the old map |
| RateLimit.AbuseTracker.AbuseDetection | mcp-server/app/core/rate_limit.py:144-160 | a blocked client gets 403 "Access denied" with the block reason and nothing is recorded; otherwise a status below 400 is passed through untouched, and one of 400 or more is recorded by `Track` as `http_<status>` |
| RateLimit.AbuseTracker.RateLimitHandler | mcp-server/app/core/rate_limit.py:184-200 | the failure is recorded by `Track`; then 429 "Too many requests" with the retry delay, or the tracking fault |
| RateLimit.FailuresWithinWindow | mcp-server/app/core/rate_limit.py:57-66 | within one window each failure adds one to the count; the block sets once the count reaches 50 and later failures never clear it |
| RateLimit.ThresholdWithinWindow | mcp-server/app/core/rate_limit.py:51-66 | from a fresh key, failures within 15 minutes of the first block it exactly when there are at least 50 of them: 50 block and 49 do not |
| RateLimit.WindowResetOnLateFailure | mcp-server/app/core/rate_limit.py:57-61 | a failure more than 900 s after the window opened leaves count 1 and `first_seen` now |
| RateLimit.NoResetAtWindowEdge | mcp-server/app/core/rate_limit.py:57-61 | a failure exactly 900 s after the window opened still adds one to the old count |
| RateLimit.FailureAfterExplicitBlockFaults | mcp-server/app/core/rate_limit.py:116-128 | an IP first seen in an explicit block has no `first_seen`, so once unblocked its next recorded failure raises (line 57) and changes neither map |
| RateLimit.EarlierUnblockClearsLaterBlock | mcp-server/app/core/rate_limit.py:116-139 | the unblock scheduled by a first block also clears a second, later block of the same IP, because the unblock keeps no deadline |
| RateLimit.FiftyServerErrorsThenDenied | mcp-server/app/core/rate_limit.py:144-160 | after 50 server errors from one IP within the window, the next request is denied with 403 and the IP reason |
| X402.SignedPayload | mcp-server/app/payments/adapters/__init__.py:88-120 | the signed payload carries the OmniAgentPay domain, version 1, chain id 5042002 and primary type "X402Intent"; its message copies the intent id, sender, recipient, expiry and nonce, has the `str()` of the amount, and the currency or "USD" |
| X402.VerifySignature | mcp-server/app/payments/adapters/__init__.py:70-142 | a missing signature fails as such; a failed recovery fails with "Signature verification failed: ..."; otherwise it passes iff no signer is configured or the recovered address equals it ignoring case, and a mismatch names both addresses |
| X402.Trunc | mcp-server/app/payments/adapters/__init__.py:158 | `int()` of the clock truncates toward zero |
| X402.ValidateExpiry | mcp-server/app/payments/adapters/__init__.py:144-160 | a missing or zero `expiresAt` is refused; otherwise it passes iff the truncated time is not past it, and an expiry message names both times |
| X402.ExpiryBoundary | mcp-server/app/payments/adapters/__init__.py:158-160 | at the second of expiry the intent passes; one second later it fails |
| X402.Sweep | mcp-server/app/payments/adapters/__init__.py:57-65 | exactly the nonces registered at most 3600 s before now survive, with their times |
| X402.CheckNonce | mcp-server/app/payments/adapters/__init__.py:164-190 | a missing or used nonce is refused and leaves the state as it was; a fresh one is registered at now; the counter goes up; every 1000th registration sweeps and resets it; the counter stays below 1000 |
| X402.IntentString | mcp-server/app/payments/adapters/__init__.py:203 | the string hashed for the fingerprint is the five rendered fields id, sender, recipient, amount and nonce, joined by ':' |
| X402.IntentStringFields | mcp-server/app/payments/adapters/__init__.py:192-204 | when no field holds ':', splitting the fingerprint string at ':' gives back the five rendered fields in order |
| X402.IntentStringDistinguishes | mcp-server/app/payments/adapters/__init__.py:203 | intents whose colon-free hashed fields differ give different fingerprint strings |
| X402.ColonCollision | mcp-server/app/payments/adapters/__init__.py:203 | two different intents, with a ':' inside a field, share the fingerprint string |
| X402.AbsentRendersAsNone | mcp-server/app/payments/adapters/__init__.py:203 | a missing intent id and the string "None" give the same fingerprint string |
| X402.TransferOf | mcp-server/app/payments/adapters/__init__.py:236-252 | the payment goes from `fromAgent` to `to` for the `str()` of the amount, in the currency or "USD", with no destination chain |
| X402.BuildReceipt | mcp-server/app/payments/adapters/__init__.py:254-274 | the receipt has status "success" and mode "x402"; its tx hash is the transfer id or ""; its explorer URL is the arcscan prefix followed by that hash; the intent id, sender, recipient, amount (as `str()`) and currency (or "USD") echo the intent; the intent hash is the given fingerprint; the message is "X402 gasless payment executed successfully" |
| X402.IntentOutcome | mcp-server/app/payments/adapters/__init__.py:206-286 | every failure is a `PaymentError` starting "X402 execution failed: "; the payment executes iff all three checks pass; the new nonce state is the one the checks leave |
| X402.ExecuteOnlyAfterAllChecks | mcp-server/app/payments/adapters/__init__.py:231-252 | it executes iff signature, expiry and nonce all pass; a signature failure, and an expiry failure after a good signature, leave the nonce state unchanged and report that failure |
| X402.ExecutionFailureConsumesNonce | mcp-server/app/payments/adapters/__init__.py:233-286 | when the payment raises after the checks passed, the error is wrapped and the nonce stays registered |
| X402.SuccessReceipt | mcp-server/app/payments/adapters/__init__.py:254-280 | a successful run answers with status "success", mode "x402", the hash of the intent string, the transfer id as tx hash, the explorer URL of that hash, the currency or "USD", the amount, the intent id, sender and recipient of the intent, and the success message |
| X402.ReplayRejected | mcp-server/app/payments/adapters/__init__.py:178-182 | once an intent has executed, any intent with the same nonce, presented at any time afterwards, executes nothing and changes no state; when its signature and expiry pass it is refused as a replay |
| X402.FingerprintIgnoresUnhashedFields | mcp-server/app/payments/adapters/__init__.py:203-204 | currency, expiry and signature do not change the fingerprint |
| X402.SignerMatchIgnoresCase | mcp-server/app/payments/adapters/__init__.py:134-136 | a recovered address equal to the lower-cased configured signer passes |
| X402.NoSignerAcceptsAnyRecovery | mcp-server/app/payments/adapters/__init__.py:134-138 | with no (or an empty) configured signer, any recovered address passes |
| X402.SweptNonceAcceptedAgain | mcp-server/app/payments/adapters/__init__.py:57-65 | a nonce swept for age is accepted again when presented later |
| X402.X402Adapter.constructor | mcp-server/app/payments/adapters/__init__.py:39-55 | the adapter keeps the client and the signer, and starts with an empty nonce cache and a zero counter |
| X402.X402Adapter.CleanupOldNonces | mcp-server/app/payments/adapters/__init__.py:57-68 | the loop that deletes the expired nonces leaves the cache equal to `Sweep` of the old one |
| X402.X402Adapter.CheckNonceReplay | mcp-server/app/payments/adapters/__init__.py:164-190 | the check's result and the new cache and counter are those of `CheckNonce` on the old state |
| X402.X402Adapter.ExecuteIntent | mcp-server/app/payments/adapters/__init__.py:206-286 | the answer and the new nonce state are those of `IntentOutcome`; the client's trace gains exactly one execute call when the checks pass and nothing otherwise |
| Service.ValidateAmount | mcp-server/app/payments/service.py:19-27 | an amount passes iff it parses to a positive number, NaN or +inf; a passing amount is kept as given; every refusal has the message "Amount must be a valid numeric string" |
| Service.ParsePaymentRequest | mcp-server/app/payments/service.py:11-27 | the request is valid iff the three string fields are present strings, the amount passes and the currency is not null; a valid request keeps the fields, has currency "USD" when left out and no destination chain when absent; an invalid one lists at least one issue |
| Service.IsRawAddress | mcp-server/app/payments/service.py:54-55 | an id matches the raw-address pattern iff it is "0x" followed by 40 hex digits, with at most one final newline |
| Service.RawAddressExactLength | mcp-server/app/payments/service.py:54-55 | "0x" and 40 hex digits match the pattern, also with one final newline; any other number of hex digits does not |
| Service.CircleWalletIdPasses | mcp-server/app/payments/service.py:54-55 | a "wallet-..." id never matches the raw-address pattern |
| Service.TransferOf | mcp-server/app/payments/service.py:72-78 | both client calls get the validated wallet id, address, amount, currency and destination chain |
| Service.BuildReceipt | mcp-server/app/payments/service.py:96-106 | the success dict has status "success"; the payment, transfer and transaction ids all are the execution's transfer id; the chain hash is its tx hash; amount, currency and key echo the request and the generated key |
| Service.PaySpec | mcp-server/app/payments/service.py:35-110 | at most two client calls are made, and the only execute call is the second one |
| Service.PaymentOrchestrator.constructor | mcp-server/app/payments/service.py:32-33 | the orchestrator keeps its client |
| Service.PaymentOrchestrator.Pay | mcp-server/app/payments/service.py:35-110 | the answer is that of `PaySpec`, and the client's trace gains exactly the calls `PaySpec` makes |
| Service.NoCallBeforeValidation | mcp-server/app/payments/service.py:46-50 | invalid input makes no client call and raises `PaymentError("Invalid input: ...")` |
| Service.RawAddressCheckPrecedesSimulation | mcp-server/app/payments/service.py:52-78 | a raw-address wallet id is refused with no client call; any other valid request is simulated first, with the validated arguments |
| Service.ExecuteOnlyAfterPassingSimulation | mcp-server/app/payments/service.py:72-93 | an execute call happens iff the request is valid, not a raw address, and its simulation returned status "success" with `validation_passed`; the calls are then that simulation followed by the execution |
| Service.SimulationRejection | mcp-server/app/payments/service.py:80-82 | a failing simulation raises `GuardValidationError` carrying its reason, or "Unknown error" with no reason key, not wrapped, after exactly one call |
| Service.SuccessReceiptAliases | mcp-server/app/payments/service.py:96-106 | on success the payment, transfer and transaction ids are all the execution's transfer id; the chain hash is its tx hash; amount and currency echo the request; the key is the generated one |
| Service.ExecutionFailureWrapped | mcp-server/app/payments/service.py:108-110 | an exception from execute becomes `PaymentError("Payment execution failed: ...")` |
| Service.NegativeAmountRefused | mcp-server/app/payments/service.py:21-26 | an amount parsing to zero or less makes the request invalid, with the non-numeric message |
| Service.NonFiniteAmountsAccepted | mcp-server/app/payments/service.py:21-26 | "nan" and "inf" pass the amount check |
| Backend.PaymentClient.SimulatePayment | mcp-server/app/payments/service.py:72-78 | a simulate call is appended to the trace, and the reply is the remote answer given the earlier calls |
| Backend.PaymentClient.ExecutePayment | mcp-server/app/payments/service.py:86-93 | an execute call is appended to the trace, and the reply is the remote answer given the earlier calls |
| OmniClient.NetworkFor | mcp-server/app/payments/omni_client.py:24 | the ARC testnet exactly when the environment is "dev", ETH otherwise |
| OmniClient.EntitySecretForSdk | mcp-server/app/payments/omni_client.py:26-44 | the configured secret is passed on iff it is set, 64 characters long and parses as base 16; any other length gives `None` |
| OmniClient.HexSecretPassedThrough | mcp-server/app/payments/omni_client.py:32-35 | a 64-digit hexadecimal secret is passed on |
| OmniClient.SimulationToDict | mcp-server/app/payments/omni_client.py:136-141 | status is always "success"; `validation_passed` is `would_succeed`; a missing or zero fee reads "0"; the reason is `None` whenever the simulation would succeed and the SDK's reason otherwise |
| OmniClient.PaymentToDict | mcp-server/app/payments/omni_client.py:157-162 | `transaction_id` is reported as `transfer_id` and `blockchain_tx` as `tx_hash`; both keys are always present |
| OmniClient.InsufficientMessageMentionsBalance | mcp-server/app/payments/omni_client.py:179-186 | the insufficient-balance message passes the pre-check's own filter |
| OmniClient.BalancePrecheck | mcp-server/app/payments/omni_client.py:172-189 | every error it raises mentions "insufficient", "no usdc" or "balance" once lower-cased; a failed balance lookup is raised as is if its message does, and swallowed otherwise |
| OmniClient.PrecheckStopsExactlyOnShortfall | mcp-server/app/payments/omni_client.py:174-182 | with the balance and the amount read, the pre-check raises iff the balance is below the amount, with the insufficient-balance message |
| OmniClient.SplitMetadata | mcp-server/app/payments/omni_client.py:192-196 | `purpose` is taken from the metadata when present; the forwarded keys are exactly the other keys, with their values |
| OmniClient.FormatBalance | mcp-server/app/payments/omni_client.py:345-353 | zero formats as "0"; a text without '.' is kept; otherwise the result is a prefix of the fixed-point text that still reaches its first decimal point, so no digit before the point is cut |
| OmniClient.DecimalPointKept | mcp-server/app/payments/omni_client.py:352-353 | stripping trailing zeros and then trailing dots never cuts before the first decimal point |
| OmniClient.FormatBalanceTrimmed | mcp-server/app/payments/omni_client.py:350-353 | with one decimal point, the formatted balance never ends in '.', has no trailing zero while it keeps a point, and only zeros and the point were removed |
| OmniClient.GetWalletUsdcBalance | mcp-server/app/payments/omni_client.py:334-399 | a primary lookup is formatted; a "no usdc balance", "has no usdc" or "walleterror" failure reads "0" with the note; other failures use the fallback; it fails iff both lookups fail, with the first error |
| SetupWallet.ValidateEntitySecret | mcp-server/scripts/setup_agent_wallet.py:28-48 | unset fails with "ENTITY_SECRET not set"; a length other than 64 fails with the length, before the hex test; a 64-character secret is valid iff it parses as base 16, with the hex message otherwise |
| SetupWallet.ValidationAgreesWithClient | mcp-server/scripts/setup_agent_wallet.py:33-46 | the script accepts exactly the secrets the payment client passes on to the SDK |
| SetupWallet.HexSecretValid | mcp-server/scripts/setup_agent_wallet.py:43-48 | a 64-digit hexadecimal secret gives `(True, None)` |
| SetupWallet.UpdatedLine | mcp-server/scripts/setup_agent_wallet.py:116-119 | a line starting `AGENT_CIRCLE_WALLET_ID=` becomes the assignment of the new id; other lines stay |
| SetupWallet.Terminated | mcp-server/scripts/setup_agent_wallet.py:123-124 | the result is the content, or the content and one newline; it ends in a newline unless empty; content that is empty or already ends in a newline is kept as it is |
| SetupWallet.EnvUpdated | mcp-server/scripts/setup_agent_wallet.py:110-125 | without the key, the new text is the old text, at most one newline, and the appended block; with it, the line-by-line rewrite (stated by the lemmas below) |
| SetupWallet.RewriteLines | mcp-server/scripts/setup_agent_wallet.py:113-120 | the loop's output is `UpdatedLine` of each input line, in order |
| SetupWallet.UpdateEnvContent | mcp-server/scripts/setup_agent_wallet.py:110-125 | the script's update gives exactly `EnvUpdated` of the content |
| SetupWallet.EnvRewriteLines | mcp-server/scripts/setup_agent_wallet.py:111-120 | with the key mentioned, the line count is kept, each assignment line becomes `AGENT_CIRCLE_WALLET_ID=<id>`, and every other line is unchanged |
| SetupWallet.MentionWithoutAssignmentUnchanged | mcp-server/scripts/setup_agent_wallet.py:111-120 | a key only mentioned and never assigned leaves the text as it is: nothing replaced, nothing appended |
| SetupWallet.AssignmentMentionsKey | mcp-server/scripts/setup_agent_wallet.py:111-116 | a text with an assignment line mentions the key |
| SetupWallet.AppendedBlockLines | mcp-server/scripts/setup_agent_wallet.py:125 | the appended block is an empty line, the comment, the assignment and an empty tail |
| SetupWallet.AppendedAfter | mcp-server/scripts/setup_agent_wallet.py:121-125 | without the key, the new lines are some lines with no assignment followed by the appended block's lines |
| SetupWallet.EnvAppendAssigns | mcp-server/scripts/setup_agent_wallet.py:121-125 | without the key, the old text is a prefix of the new one, which assigns the key and only to the new id |
| SetupWallet.StableContentUnchanged | mcp-server/scripts/setup_agent_wallet.py:111-120 | a text that mentions the key and assigns only the new id is a fixed point of the update |
| SetupWallet.EnvUpdateIdempotent | mcp-server/scripts/setup_agent_wallet.py:110-125 | recording the same wallet id twice gives the text of recording it once |
| Router.ErrorFor | mcp-server/app/mcp/router.py:38-76 | -32601 iff `ValueError`, with its message; -32602 iff `GuardValidationError`, "Payment blocked by security policy"; other `PaymentError`: -32603, "Payment processing failed"; anything else: -32603, "An unexpected error occurred"; a detail iff a payment error, and it is the error's detail |
| Router.ParamsOrEmpty | mcp-server/app/mcp/router.py:34 | missing params reach the tool as an empty dict; given params as they are |
| Router.HandleRpc | mcp-server/app/mcp/router.py:27-76 | the id is always echoed; the registry is called iff the method is not `list_tools`; exactly one of result and error is set; `list_tools` answers the definitions; a tool's result or the classification of its exception is answered |
| Router.ListToolsIgnoresRegistry | mcp-server/app/mcp/router.py:28-30 | the `list_tools` answer does not depend on the registry |
| Router.SimulationRejectionResponse | mcp-server/app/mcp/router.py:46-56 | a payment whose simulation fails reaches the caller as -32602 with the simulation's reason as detail |
| Router.UnexpectedPayErrorComesFromSimulation | mcp-server/app/mcp/router.py:70-76 | a payment answered with no detail failed in the simulate call itself, which `pay` lets through unwrapped |

## Left out

- EIP-712 encoding and `Account.recover_message` are a parameter `recover`, and SHA-256 is a
  parameter `sha256Hex`. The fingerprint is not claimed to be injective.
- `time.time()`, `uuid.uuid4()` and `exc.retry_after` are parameters. One `now` stands for both
  time readings in a nonce registration that triggers a sweep.
- `float(v)`, `int(s, 16)` and `Decimal()` are parameters (`toFloat`, `parsesHex`,
  `toDecimal`). Floating-point parsing and the full base-16 syntax (sign, prefix, underscores,
  whitespace) are not reproduced.
- Pydantic's wording of validation errors is a parameter `validationText`.
- Python's `str.lower()` is modelled on ASCII letters only. The whitespace set of `strip()` is
  Python's.
- The framework's case-insensitive header lookup is taken as done.
- The `asyncio` machinery is left out:
  - the timer of the deferred unblock is not modelled; `RunUnblock` is its effect when it
    fires;
  - the lock of the client singleton in `get_instance`.
- The slowapi limiter is library behaviour and is left out. That covers its "20/15minutes" limit
  on the RPC endpoint and the `general_limiter`, `strict_limiter` and `user_limiter`
  decorators.
- The tool registry and the tool-definition dump are not part of this model. The registry's
  "Tool not found" `ValueError` is one of the exceptions `ErrorFor` classifies.
- `app/utils/exceptions` is not part of this model. `GuardValidationError` is taken as a
  subclass of `PaymentError`.
- SDK calls are thin wrappers over a library outside this code and are left out:
  - wallet creation and the guard set-up;
  - `create_payment_intent`'s SDK call and the rewording of its errors;
  - `confirm_intent`, `get_transaction_status` and the Circle client.
- `main.py`, the x402 tool wrapper and `create_secret.py` are wiring and are not part of this
  model. So are the `.env` file I/O, `print`, `input` and `sys.exit` of the setup script, and all
  logging.
- An exception raised by the downstream handler inside the abuse middleware is left out. It goes
  to the global handler in `main.py`.
- The SDK wrapper's `simulate_payment` and `execute_payment` take no `destination_chain`, while the
  orchestrator passes one. The orchestrator is modelled against the abstract client it is written
  for.
- `str()` of a `PaymentError` or a `GuardValidationError` is taken to be its detail (`Exception.Message`),
  since the exception classes are not part of this model. The wrapped messages
  "X402 execution failed: ...", "Signature verification failed: ..." and "Payment execution failed: ...",
  and the lower-cased filter of the balance pre-check, rest on that.
- RateLimit.AbuseTracker.AbuseDetection and RateLimit.AbuseTracker.RateLimitHandler: `Denied(403, ...)`
  and `TooManyRequests(429, ...)` stand for the `HTTPException` each one raises. The model stops at
  that exception. How the web framework turns an exception raised in an HTTP middleware or an
  exception handler into a response (possibly through the catch-all handler of `main.py`) is not
  modelled.
- X402.X402Adapter.ExecuteIntent: one `now` stands for the clock readings of the expiry check
  (`int(time.time())`) and of the nonce registration (`time.time()`), which the code takes a moment
  apart.
- SetupWallet.EnvRewriteLines, SetupWallet.EnvAppendAssigns, SetupWallet.AppendedAfter,
  SetupWallet.AppendedBlockLines and SetupWallet.EnvUpdateIdempotent: stated for wallet ids without a
  newline. A wallet id holding "\n" would add lines of its own, and the line-by-line statements no
  longer hold. The SDK's wallet ids are not known to hold one, but the script does not check.
- Service.PaySpec: its own contract states only the shape of the call trace. What it decides is
  stated by the lemmas after it (`NoCallBeforeValidation` through `ExecutionFailureWrapped`).
- OmniClient.BalancePrecheck: its contract covers the filter and the failed-lookup case. The
  comparison of balance and amount is stated by `PrecheckStopsExactlyOnShortfall`.
- OmniClient.EntitySecretForSdk: an exception while reading the secret value (lines 42-44) is
  not modelled. The secret is a plain string here.
