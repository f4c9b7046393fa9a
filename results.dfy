/** Outcomes shared by the tokenizer, the validating constructor and the evaluator.
    The source signals failure with exceptions; here every way an operation can end
    is a value. */
module Results {

  /** What a Lookup delegate gives for a variable name: its value, or None where the
      delegate would throw UndefinedVariableException. */
  datatype Option<+T> = None | Some(value: T)

  /** The ways a Formula operation can fail.
      FormatError and EvaluationError are the two exception classes the source defines
      for callers; the other two are .NET runtime exceptions that escape the source
      uncaught. */
  datatype Error =
    | FormatError      // FormulaFormatException, raised by the constructor
    | EvaluationError  // FormulaEvaluationException, raised by Evaluate
    | IndexOutOfRange  // IndexOutOfRangeException from indexing an empty token array
    | EmptyStack       // InvalidOperationException from Peek or Pop on an empty Stack

  datatype Result<+T> = Success(value: T) | Failure(error: Error)
}
