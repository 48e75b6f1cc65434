/** The exceptions the modelled code raises, and the failure-compatible
    wrappers that carry them.  A Python `raise` becomes an `Err` value. */
module Errors {

  datatype Option<+T> = None | Some(value: T) {
    function GetOr(default: T): T {
      match this
      case Some(v) => v
      case None => default
    }
  }

  datatype Error =
    | SyntaxErr(msg: string)
      /** `IndentationError(msg, (filename, line, col, source))`; a subclass of SyntaxError. */
    | IndentationErr(msg: string, line: int, col: int)
      /** `tokenize.TokenError(msg, (line, col))`; not a SyntaxError. */
    | TokenErr(msg: string, line: int, col: int)
    | KeyErr
    | IndexErr
    | AttributeErr
    | TypeErr
    | AssertionErr
      /** The token generator is exhausted: `next()` raised StopIteration. */
    | StopIter
      /** The source loops forever without producing anything. */
    | Diverges
      /** A path through foreign code (string continuation lines) that is not modelled. */
    | Unmodelled
  {
    /** Python's `except SyntaxError` catches SyntaxError and IndentationError. */
    predicate IsSyntaxError() {
      SyntaxErr? || IndentationErr?
    }

    /** `args[0]` of a SyntaxError or IndentationError. */
    function Message(): string
      requires IsSyntaxError()
    {
      match this
      case SyntaxErr(m) => m
      case IndentationErr(m, _, _) => m
    }
  }

  datatype Result<+T> = Ok(value: T) | Err(error: Error) {
    predicate IsFailure() {
      Err?
    }

    function PropagateFailure<U>(): Result<U>
      requires Err?
    {
      Err(error)
    }

    function Extract(): T
      requires Ok?
    {
      value
    }
  }
}
