/** Failure-carrying values shared by every module of the model: the
    exceptions the analysis code can raise and a Result that carries one. */
module Results {

  datatype Option<T> = None | Some(value: T)

  /** One case per `throw` in the analysis service, plus the runtime
      failures of JavaScript that its code can run into. A failed endpoint
      call is not among them: it travels as the request's answer. */
  datatype Thrown =
    | NoJsonObject                       // 'No JSON object found in response'
    | SyntaxError                        // JSON.parse rejected the extracted span
    | InvalidStructure                   // a parsed reply lacks the fields an analyzer needs
    | TypeError                          // a property read on null, or toLowerCase on a non-string
    | NoValidRisks                       // 'No valid risks in response'
    | EmptyContent                       // 'Empty content provided'

  /** The outcome of code that may throw: its value, or the exception. */
  datatype Result<T> = Ok(value: T) | Err(error: Thrown) {

    predicate IsFailure() {
      Err?
    }

    function PropagateFailure<U>(): Result<U>
      requires Err?
    {
      Err(error)
    }

    function Extract(): T
      requires Ok?
    {
      value
    }

    /** A `catch` that replaces every exception by the same value. */
    function GetOr(default: T): T {
      if Ok? then value else default
    }
  }
}
