/** Every failure the request-chaining engine reports, with the text Go prints for it. */
module Errors {
  import opened JsonValue
  import Strconv

  datatype Error =
      /** `strconv.Atoi` rejected a bracketed index; returned unchanged. */
    | BadIndex(cause: Strconv.AtoiError)
      /** A path step found no such key (or no object) at the current depth. */
    | ResponseDoesNotContain(key: string)
      /** A `key[i]` step found a member that is not an array. */
    | NotAnArray(value: Json)
      /** A `key[i]` step with `i` outside `0 <= i < length`. */
    | IndexOutOfBounds(key: string, length: nat)
      /** `getValueForKey` on an object without the key. */
    | KeyNotFound(key: string)
      /** `getValueForKey` or `setValueForKey` on a value that is not an object. */
    | NotAMap
      /** A binding whose target variable was not declared in the configuration. */
    | NotDefinedInConfig(key: string)
      /** The template of `field` could not be resolved; `original` is its unresolved text. */
    | TemplateInvalid(field: string, original: string)
      /** Failures of collaborators whose text the model does not produce. */
    | TransportFailed(reason: string)
    | ReadFailed(reason: string)
    | DecodeFailed(reason: string)
    | PrettyFailed(reason: string)
      /** Test mode: the status code differs from `WantStatus`. */
    | StatusMismatch(want: int, got: int)
      /** Test mode: the expectation is not contained in the body. */
    | ResponseMismatch(expected: string, output: string)
      /** None of the configuration file candidates exists. */
    | ConfigNotFound

  /** How `fmt`'s `%s` verb shows a decoded value that is not an array. */
  function ValueText(v: Json): string
  {
    match v
    case Str(s) => s
    case Null => "%!s(<nil>)"
    case Bool(b) => if b then "%!s(bool=true)" else "%!s(bool=false)"
    case _ => "%!s(" + KindName(v) + ")"
  }

  function Message(e: Error): string
  {
    match e
    case BadIndex(c) =>
      "strconv.Atoi: parsing \"" + c.num + "\": " + (if c.InvalidSyntax? then "invalid syntax" else "value out of range")
    case ResponseDoesNotContain(k) => "response does not contain " + k
    case NotAnArray(v) => ValueText(v) + " picked in var is not an array, it is " + KindName(v)
    case IndexOutOfBounds(k, n) => "index requested is out of bounds, length '" + k + "' is " + Strconv.FormatInt(n)
    case KeyNotFound(k) => "key " + k + " not found"
    case NotAMap => "value is not a map"
    case NotDefinedInConfig(k) => "var '" + k + "' was not defined in the config"
    case TemplateInvalid(field, original) =>
      "failed replacing value for the " + field + " => `" + original + "`, the variable is invalid"
    case TransportFailed(reason) => reason
    case ReadFailed(reason) => reason
    case DecodeFailed(reason) => reason
    case PrettyFailed(reason) => reason
    case StatusMismatch(want, got) =>
      "status mismatch: expected status " + Strconv.FormatInt(want) + ", got " + Strconv.FormatInt(got)
    case ResponseMismatch(expected, output) =>
      "response mismatch: expected '" + expected + "' is not contained in the output \n" + output
    case ConfigNotFound => "configuration file not found"
  }
}
