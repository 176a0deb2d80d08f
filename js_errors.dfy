/**
 * What a `catch` clause can receive. An `Error` instance always has a `message`;
 * errors coming from the database client also carry a `code` property, which may
 * hold a string or be `null`/`undefined`. Anything else thrown is not an `Error`.
 */
module JsErrors {
  import opened Wrappers

  /** Whether an `Error` has an own `code` property, and what it holds. */
  datatype CodeProperty = NoCode | HasCode(code: Option<string>)

  datatype Thrown =
    | ErrorObject(message: string, codeProperty: CodeProperty)
    | NonError

  /** `error instanceof Error ? error.message : fallback`. */
  function MessageOr(t: Thrown, fallback: string): (text: string)
    ensures t.ErrorObject? ==> text == t.message
    ensures t.NonError? ==> text == fallback
  {
    match t
    case ErrorObject(message, _) => message
    case NonError => fallback
  }
}
