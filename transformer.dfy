/**
 * The default `Transformer`: `transform_expr` hands each node to the one callback its variant
 * selects, and every default callback returns a clone of its node in the same variant without
 * transforming the children. `transform` calls `transform_expr` and nothing else.
 */
module Transformer {
  import opened Wrappers
  import opened Ast
  import opened Visitor

  /**
   * `transform` with every callback left at its default: the same variant holding the same
   * payload, so the tree comes back unchanged. The error type is the transformer's own; the
   * defaults never produce one.
   */
  function TransformExpr<E>(e: Expr): (r: Result<Expr, E>)
    ensures r.Success? && Dispatch(r.value) == Dispatch(e)
    ensures r == Success(e)
  {
    match e
    case BinaryExpr(op, lhs, rhs) => Success(BinaryExpr(op, lhs, rhs))
    case FunCallExpr(c) => Success(FunCallExpr(c))
    case VectorExpr(v) => Success(VectorExpr(v))
    case NumberLiteralExpr(n) => Success(NumberLiteralExpr(n))
    case StringLiteralExpr(lit) => Success(StringLiteralExpr(lit))
    case SubQueryExpr(x, range, resolution) => Success(SubQueryExpr(x, range, resolution))
    case NegationExpr(x) => Success(NegationExpr(x))
  }
}
