/**
 * The parser's error type: either a semantic `ParserError` or a combinator error carrying the
 * remaining input and the kind of the combinator that failed. Also the interface to the
 * external duration decoder.
 */
module Errors {
  import opened Wrappers
  import opened Ast

  /** The combinator kinds that can surface in an error of this grammar. */
  datatype ErrorKind = Tag | IsA | Alpha | AlphaNumeric | Escaped | OneOf | Float | Alt

  /**
   * The reasons the external duration decoder gives for rejecting a token; positions are
   * character offsets into the token.
   */
  datatype DurationError =
    | InvalidCharacter(pos: nat)
    | NumberExpected(pos: nat)
    | UnknownUnit(start: nat, end: nat, unit: string, value: nat)
    | NumberOverflow
    | Empty

  datatype ParserError =
    | InvalidDuration(cause: DurationError)
    | RangeOnlyVectorSelectors
    | InvalidMatrixSelector
    | InvalidOffsetExpr

  datatype Error = Parser(parserError: ParserError) | Nom(input: string, kind: ErrorKind)

  /**
   * The duration decoder the selector grammar delegates to: it turns a token such as `5m` or
   * `1h30m` into a duration or rejects it. It is a parameter of the model.
   */
  type Decoder = string -> Result<Duration, DurationError>

  /** A combinator failing on `input` reports the input and its own kind. */
  function FromErrorKind(input: string, kind: ErrorKind): (e: Error)
    ensures e.Nom? && e.input == input && e.kind == kind
  {
    Nom(input, kind)
  }

  /** Combining errors keeps the most recent one and discards the position and kind given. */
  function Append(input: string, kind: ErrorKind, other: Error): (e: Error)
    ensures e == other
  {
    other
  }

  /** Context labels are dropped: the error passes through unchanged. */
  function AddContext(input: string, ctx: string, other: Error): (e: Error)
    ensures e == other
  {
    other
  }
}
