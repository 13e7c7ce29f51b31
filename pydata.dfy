/**
 * Values as the Python code reads them out of JSON-like dicts, and the Python exceptions
 * that travel between the payment code and the RPC endpoint.
 */
module PyData {
  import opened Wrappers

  /** What a dict holds under one key: nothing, JSON null (Python `None`), or a string. */
  datatype Field = Absent | Null | Str(s: string)

  /** `d.get(key)`: `None` when the key is missing or holds null. */
  function Get(f: Field): Option<string> {
    match f
    case Str(s) => Some(s)
    case _ => None
  }

  /** `d.get(key, default)`: the default only when the key is missing; a stored null stays `None`. */
  function GetOr(f: Field, default: string): Option<string> {
    match f
    case Absent => Some(default)
    case Null => None
    case Str(s) => Some(s)
  }

  /** An optional value stored in a dict: `None` is stored as null. */
  function Stored(o: Option<string>): (f: Field)
    ensures Get(f) == o && !f.Absent?
  {
    match o
    case None => Null
    case Some(s) => Str(s)
  }

  /** `str(x)` or `f"{x}"` of an optional string: `None` prints as "None". */
  function Render(o: Option<string>): string {
    match o
    case None => "None"
    case Some(s) => s
  }

  /** Python truthiness of an optional string: present and non-empty. */
  predicate Truthy(o: Option<string>) {
    o.Some? && o.value != ""
  }

  /**
   * A Python `decimal.Decimal` as far as the model needs it: its numeric value, `str(d)`,
   * and `format(d.normalize(), 'f')`. The decimal arithmetic itself is the library's.
   */
  datatype Decimal = Decimal(value: real, text: string, fixedText: string)

  /**
   * The exceptions the RPC endpoint tells apart. `PaymentError` and `GuardValidationError`
   * carry a `detail`; `GuardValidationError` is a kind of `PaymentError`.
   */
  datatype Exception =
    | ValueError(msg: string)
    | PaymentError(detail: string)
    | GuardValidationError(detail: string)
    | OtherError(typeName: string, msg: string)
  {
    /** `str(e)`. */
    function Message(): string {
      match this
      case ValueError(m) => m
      case PaymentError(d) => d
      case GuardValidationError(d) => d
      case OtherError(_, m) => m
    }

    /** `isinstance(e, PaymentError)`. */
    predicate IsPaymentError() {
      PaymentError? || GuardValidationError?
    }
  }
}
