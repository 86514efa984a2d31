/**
 * The few scripting-runtime values the command bridge handles: the
 * arguments of its native functions, callbacks, thrown errors and the
 * runtime's conversion of a value to a string.
 */
module JsValue {
  import opened Wrappers
  import opened Decimal

  /**
   * The integers a runtime number holds exactly and renders digit for
   * digit: magnitude at most 2^53 - 1 (Number.MAX_SAFE_INTEGER).
   */
  type SafeInteger = n: int | -0x1F_FFFF_FFFF_FFFF <= n <= 0x1F_FFFF_FFFF_FFFF

  /**
   * A runtime value. Numbers are safe integers here; a function carries
   * its identity and its source text; an error object its name and
   * message, with the inherited toString.
   */
  datatype Value =
    | Undefined
    | Null
    | Bool(b: bool)
    | Number(n: SafeInteger)
    | Str(s: string)
    | Symbol(description: string)
    | Function(id: nat, source: string)
    | ErrorObject(name: string, message: string)

  /** The runtime's error types that the bridge can raise. */
  datatype ErrorType = NotAString | NotAFunction | ConvertSymbolToString

  datatype Exception =
    | TypeError(kind: ErrorType, culprit: Value)
    | Error(message: string)

  /** A completion: a normal result or a thrown exception. */
  datatype Completion<T> = Normal(value: T) | Throw(exception: Exception)

  /** The argument at `i`, or undefined when fewer were passed. */
  function Argument(args: seq<Value>, i: nat): (v: Value)
    ensures i < |args| ==> v == args[i]
    ensures i >= |args| ==> v == Undefined
  {
    if i < |args| then args[i] else Undefined
  }

  /**
   * The runtime's ToString: only a symbol refuses to become a string. An
   * error object renders as ECMA-262 section 20.5.3.4 (Error.prototype.toString)
   * describes, for a name and message that are already strings.
   */
  function ToString(v: Value): (r: Completion<string>)
    ensures r.Throw? <==> v.Symbol?
    ensures r.Throw? ==> r.exception == TypeError(ConvertSymbolToString, v)
    ensures v.Str? ==> r == Normal(v.s)
    ensures v.Number? ==> ParseInt(r.value) == Some(v.n)
  {
    match v
    case Undefined => Normal("undefined")
    case Null => Normal("null")
    case Bool(b) => Normal(if b then "true" else "false")
    case Number(n) =>
      IntStringRoundTrip(n);
      Normal(IntString(n))
    case Str(s) => Normal(s)
    case Symbol(_) => Throw(TypeError(ConvertSymbolToString, v))
    case Function(_, source) => Normal(source)
    case ErrorObject(name, message) =>
      Normal(if name == "" then message else if message == "" then name else name + ": " + message)
  }
}
