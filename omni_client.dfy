/**
 * The pure parts of the wrapper around the payments SDK: which network and which entity secret
 * it is built with, how SDK results become the dicts the rest of the server reads, the balance
 * pre-check before a payment intent, the split of `purpose` out of the intent metadata, and the
 * formatting of a wallet's USDC balance.
 */
module OmniClient {
  import opened Wrappers
  import opened PyData
  import Text
  import Backend

  datatype Network = ArcTestnet | Eth

  /** The network follows `ENVIRONMENT`: the ARC testnet for "dev" only. */
  function NetworkFor(environment: string): (n: Network)
    ensures n == ArcTestnet <==> environment == "dev"
  {
    if environment == "dev" then ArcTestnet else Eth
  }

  /**
   * The entity secret handed to the SDK: the configured one when it is set, 64 characters long
   * and accepted by `int(s, 16)` (`parsesHex`); otherwise `None`, which makes the SDK generate one.
   */
  function EntitySecretForSdk(secret: Option<string>, parsesHex: string -> bool): (r: Option<string>)
    ensures r.Some? <==> Truthy(secret) && |secret.value| == 64 && parsesHex(secret.value)
    ensures r.Some? ==> r == secret
    ensures Truthy(secret) && |secret.value| != 64 ==> r.None?
  {
    if Truthy(secret) && |secret.value| == 64 && parsesHex(secret.value) then secret else None
  }

  /** A 64-digit hexadecimal secret is passed through whenever `int(s, 16)` accepts hex digits. */
  lemma HexSecretPassedThrough(secret: string, parsesHex: string -> bool)
    requires |secret| == 64 && Text.AllHexDigits(secret)
    requires forall s :: s != "" && Text.AllHexDigits(s) ==> parsesHex(s)
    ensures EntitySecretForSdk(Some(secret), parsesHex) == Some(secret)
  {
    assert secret != "";
    assert parsesHex(secret);
  }

  /** The SDK's `SimulationResult`. `estimatedFee` is a `Decimal` or `None`. */
  datatype SimulationResult = SimulationResult(wouldSucceed: bool, estimatedFee: Option<Decimal>, reason: Option<string>)

  /** `simulate_payment`'s dict. A fee that is `None` or zero is reported as "0". */
  function SimulationToDict(r: SimulationResult): (d: Backend.SimulationDict)
    ensures d.status == Str("success") && d.validationPassed == r.wouldSucceed
    ensures (r.estimatedFee.None? || r.estimatedFee.value.value == 0.0) ==> d.estimatedFee == Str("0")
    ensures r.estimatedFee.Some? && r.estimatedFee.value.value != 0.0 ==> d.estimatedFee == Str(r.estimatedFee.value.text)
    ensures r.wouldSucceed ==> d.reason == Null
    ensures !r.wouldSucceed ==> Get(d.reason) == r.reason && !d.reason.Absent?
  {
    var fee := if r.estimatedFee.Some? && r.estimatedFee.value.value != 0.0 then r.estimatedFee.value.text else "0";
    Backend.SimulationDict(Str("success"), r.wouldSucceed, Str(fee), if r.wouldSucceed then Null else Stored(r.reason))
  }

  /** The SDK's `PaymentResult`. */
  datatype PaymentResult = PaymentResult(transactionId: Option<string>, status: string, blockchainTx: Option<string>, amount: Decimal)

  /** `execute_payment`'s dict: `transaction_id` becomes `transfer_id`, `blockchain_tx` becomes `tx_hash`. */
  function PaymentToDict(p: PaymentResult): (d: Backend.ExecutionDict)
    ensures Get(d.transferId) == p.transactionId && !d.transferId.Absent?
    ensures Get(d.txHash) == p.blockchainTx && !d.txHash.Absent?
    ensures d.status == Str(p.status) && d.amount == Str(p.amount.text)
  {
    Backend.ExecutionDict(Stored(p.transactionId), Str(p.status), Stored(p.blockchainTx), Str(p.amount.text))
  }

  /** The pre-check only lets through errors whose lower-cased message mentions the balance. */
  predicate MentionsBalance(lowered: string) {
    Text.Contains(lowered, "insufficient") || Text.Contains(lowered, "no usdc") || Text.Contains(lowered, "balance")
  }

  /** The pre-check's own message, grouped so that its first word stands apart. */
  function InsufficientMessage(balance: Decimal, amount: Decimal): string {
    "Insufficient" + (" balance: Wallet has " + balance.text + " USDC, but " + amount.text
    + " USDC is required. Please fund the wallet before creating payment intents.")
  }

  /** The insufficient-balance message passes its own filter. */
  lemma InsufficientMessageMentionsBalance(balance: Decimal, amount: Decimal)
    ensures MentionsBalance(Text.Lower(InsufficientMessage(balance, amount)))
  {
    var head := "Insufficient";
    var rest := InsufficientMessage(balance, amount)[|head|..];
    assert InsufficientMessage(balance, amount) == head + rest;
    Text.LowerConcat(head, rest);
    assert Text.Lower(head) == "insufficient";
    Text.StartsWithContains("insufficient" + Text.Lower(rest), "insufficient");
  }

  /**
   * The balance pre-check of `create_payment_intent`. `balance` is the wallet's `usdc_balance`
   * string or the error fetching it; `toDecimal` is `Decimal(s)`. The result is the exception
   * it raises, or `None` to go on with the intent.
   */
  function BalancePrecheck(balance: Result<string, Exception>, amount: string,
                           toDecimal: string -> Result<Decimal, Exception>): (r: Option<Exception>)
    ensures r.Some? ==> MentionsBalance(Text.Lower(r.value.Message()))
    ensures balance.Err? && !MentionsBalance(Text.Lower(balance.error.Message())) ==> r.None?
    ensures balance.Err? && MentionsBalance(Text.Lower(balance.error.Message())) ==> r == Some(balance.error)
  {
    var attempt: Option<Exception> :=
      match balance
      case Err(e) => Some(e)
      case Ok(text) =>
        match toDecimal(text)
        case Err(e) => Some(e)
        case Ok(have) =>
          match toDecimal(amount)
          case Err(e) => Some(e)
          case Ok(need) =>
            if have.value < need.value then
              InsufficientMessageMentionsBalance(have, need);
              Some(OtherError("Exception", InsufficientMessage(have, need)))
            else None;
    match attempt
    case None => None
    case Some(e) => if MentionsBalance(Text.Lower(e.Message())) then Some(e) else None
  }

  /**
   * With the balance and both amounts read, the pre-check stops the intent exactly when the
   * balance is below the amount, and then with the insufficient-balance message.
   */
  lemma PrecheckStopsExactlyOnShortfall(balance: string, amount: string,
                                        toDecimal: string -> Result<Decimal, Exception>)
    requires toDecimal(balance).Ok? && toDecimal(amount).Ok?
    ensures var have, need := toDecimal(balance).value, toDecimal(amount).value;
      var r := BalancePrecheck(Ok(balance), amount, toDecimal);
      (r.Some? <==> have.value < need.value)
      && (r.Some? ==> r.value == OtherError("Exception", InsufficientMessage(have, need)))
  {
    var have, need := toDecimal(balance).value, toDecimal(amount).value;
    if have.value < need.value {
      InsufficientMessageMentionsBalance(have, need);
    }
  }

  /** `purpose` out of the metadata, and the rest of the keys forwarded unchanged. */
  function SplitMetadata<V>(metadata: Option<map<string, V>>): (r: (Option<V>, map<string, V>))
    ensures metadata.None? ==> r == (None, map[])
    ensures metadata.Some? ==>
      (r.0.Some? <==> "purpose" in metadata.value)
      && (r.0.Some? ==> r.0.value == metadata.value["purpose"])
      && "purpose" !in r.1
      && (forall k :: k in r.1 <==> k in metadata.value && k != "purpose")
      && (forall k :: k in r.1 ==> r.1[k] == metadata.value[k])
  {
    if metadata.None? || metadata.value == map[] then (None, map[])
    else
      var m := metadata.value;
      (if "purpose" in m then Some(m["purpose"]) else None, map k | k in m && k != "purpose" :: m[k])
  }

  /**
   * The trimmed fixed-point balance: "0" for zero, the fixed-point text when it has no '.', and
   * otherwise that text with trailing zeros and then trailing dots removed.
   */
  function FormatBalance(d: Decimal): (s: string)
    ensures d.value == 0.0 ==> s == "0"
    ensures d.value != 0.0 && '.' !in d.fixedText ==> s == d.fixedText
    ensures d.value != 0.0 ==> |s| <= |d.fixedText| && s == d.fixedText[..|s|]
    ensures d.value != 0.0 && '.' in d.fixedText ==>
      exists p :: 0 <= p < |d.fixedText| && d.fixedText[p] == '.' && p <= |s|
  {
    if d.value == 0.0 then "0"
    else if '.' in d.fixedText then
      DecimalPointKept(d.fixedText);
      Text.RStrip(Text.RStrip(d.fixedText, '0'), '.')
    else d.fixedText
  }

  /** Stripping trailing zeros, then trailing dots, never cuts before the first decimal point. */
  lemma DecimalPointKept(f: string)
    requires '.' in f
    ensures var s := Text.RStrip(Text.RStrip(f, '0'), '.');
      exists p :: 0 <= p < |f| && f[p] == '.' && p <= |s|
  {
    var z := Text.RStrip(f, '0');
    var s := Text.RStrip(z, '.');
    var q :| 0 <= q < |f| && f[q] == '.';
    assert q < |z|;
    if |s| < |z| {
      assert f[|s|] == z[|s|] == '.';
    } else {
      assert q <= |s|;
    }
  }

  /** At most one '.' in a string. */
  predicate AtMostOneDot(s: string) {
    forall i, j :: 0 <= i < j < |s| && s[i] == '.' ==> s[j] != '.'
  }

  /**
   * For a fixed-point text with one decimal point, the trimmed balance never ends in '.', and
   * when it still has a decimal point it does not end in '0'; all that was removed is zeros and
   * the point.
   */
  lemma {:induction false} FormatBalanceTrimmed(d: Decimal)
    requires d.value != 0.0 && '.' in d.fixedText && AtMostOneDot(d.fixedText)
    ensures var s := FormatBalance(d);
      (s == [] || s[|s| - 1] != '.')
      && ('.' in s ==> s[|s| - 1] != '0')
      && (forall k :: |s| <= k < |d.fixedText| ==> d.fixedText[k] == '0' || d.fixedText[k] == '.')
  {
    var f := d.fixedText;
    var z := Text.RStrip(f, '0');
    var s := Text.RStrip(z, '.');
    assert s == FormatBalance(d);
    if '.' in s {
      // otherwise a '.' was stripped from the end of z while s still holds one: two dots in f
      assert s == z;
    }
    forall k | |s| <= k < |f|
      ensures f[k] == '0' || f[k] == '.'
    {
      if k >= |z| {
        assert f[k] == '0';
      } else {
        assert z[k] == '.';
        assert f[k] == z[k];
      }
    }
  }

  const NoUsdcNote := "Wallet has no USDC balance. Funds need to be deposited to the wallet address."

  /** Lower-cased error messages that mean "this wallet holds no USDC". */
  predicate MeansNoUsdc(lowered: string) {
    Text.Contains(lowered, "no usdc balance") || Text.Contains(lowered, "has no usdc") || Text.Contains(lowered, "walleterror")
  }

  datatype BalanceDict = BalanceDict(walletId: string, usdcBalance: string, currency: string, note: Option<string>)

  /**
   * `get_wallet_usdc_balance` given the SDK's USDC-balance lookup and its fallback `get_balance`
   * lookup. A "no USDC" error reads as a zero balance; any other error tries the fallback, and
   * if that fails too the first error is raised.
   */
  function GetWalletUsdcBalance(walletId: string, primary: Result<Decimal, Exception>,
                                fallback: Result<Decimal, Exception>): (r: Result<BalanceDict, Exception>)
    ensures r.Ok? ==> r.value.walletId == walletId && r.value.currency == "USDC"
    ensures primary.Ok? ==> r == Ok(BalanceDict(walletId, FormatBalance(primary.value), "USDC", None))
    ensures primary.Err? && MeansNoUsdc(Text.Lower(primary.error.Message())) ==>
      r == Ok(BalanceDict(walletId, "0", "USDC", Some(NoUsdcNote)))
    ensures primary.Err? && !MeansNoUsdc(Text.Lower(primary.error.Message())) && fallback.Ok? ==>
      r == Ok(BalanceDict(walletId, FormatBalance(fallback.value), "USDC", None))
    ensures r.Err? <==> primary.Err? && !MeansNoUsdc(Text.Lower(primary.error.Message())) && fallback.Err?
    ensures r.Err? ==> r.error == primary.error
  {
    match primary
    case Ok(amount) => Ok(BalanceDict(walletId, FormatBalance(amount), "USDC", None))
    case Err(e) =>
      if MeansNoUsdc(Text.Lower(e.Message())) then Ok(BalanceDict(walletId, "0", "USDC", Some(NoUsdcNote)))
      else
        match fallback
        case Ok(amount) => Ok(BalanceDict(walletId, FormatBalance(amount), "USDC", None))
        case Err(_) => Err(e)
  }
}
