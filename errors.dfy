/**
 * The napkin exception hierarchy (nexception.h) as a value, together with the
 * Option and Result wrappers every other module returns.
 *
 * Lexer, Parser, Runtime and Implementation are the four exception classes of
 * the source. The remaining variants are outcomes the source does not raise
 * itself but that the model has to name:
 *  - Crash:       the host program fails outside the napkin hierarchy
 *                 (a null NObject dereferenced, std::out_of_range escaping,
 *                 a token index read past the end of the vector);
 *  - Unmodelled:  the host computes something this model does not represent
 *                 (an IEEE infinity or NaN, an irrational std::pow, the body
 *                 of a native function);
 *  - OutOfFuel:   the evaluation budget given to the interpreter ran out.
 */
module Errors {

  datatype Error =
    | LexerError(message: string)
    | ParserError(message: string)
    | RuntimeError(message: string)
    | ImplementationError(message: string)
    | Crash(message: string)
    | Unmodelled(message: string)
    | OutOfFuel

  datatype Option<+T> = None | Some(value: T)

  datatype Result<+T> = Ok(value: T) | Err(error: Error) {
    predicate IsFailure() {
      Err?
    }

    function PropagateFailure<U>(): Result<U>
      requires Err?
    {
      Err(error)
    }

    function Extract(): T
      requires Ok?
    {
      value
    }
  }
}
