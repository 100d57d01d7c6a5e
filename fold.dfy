/**
 * The left fold that builds a chain of binary expressions at one precedence level: the first
 * operand, then each `(operator, operand)` pair folded in as the new right-hand side of a node
 * whose left-hand side is everything so far.
 */
module Fold {
  import opened Ast

  /** The `(operator, operand)` pairs a level's `many0` collects after its first operand. */
  type Tail = seq<(BinaryOp, Expr)>

  /**
   * The left-associative chain: its root is the last operator, the last operand is the root's
   * right-hand side, and the chain of all earlier pairs is its left-hand side.
   */
  function Chain(a: Expr, ps: Tail): Expr
    decreases |ps|
  {
    if ps == [] then a
    else BinaryExprOf(ps[|ps| - 1].0, Chain(a, ps[..|ps| - 1]), ps[|ps| - 1].1)
  }

  /**
   * The `for` loop of the five left-folding levels: an empty tail returns the operand unchanged,
   * otherwise each pair in turn becomes the root with the accumulated expression on its left.
   */
  method FoldChain(a: Expr, ps: Tail) returns (e: Expr)
    ensures e == Chain(a, ps)
  {
    if |ps| == 0 {
      return a;
    }
    e := a;
    var i := 0;
    while i < |ps|
      invariant 0 <= i <= |ps|
      invariant e == Chain(a, ps[..i])
    {
      var (op, c) := ps[i];
      assert ps[..i + 1][..i] == ps[..i];
      e := BinaryExprOf(op, e, c);
      i := i + 1;
    }
    assert ps[..|ps|] == ps;
  }

  /** Folding a tail in two parts: the chain of the first part is the start of the second. */
  lemma {:induction false} ChainAppend(a: Expr, ps: Tail, qs: Tail)
    ensures Chain(a, ps + qs) == Chain(Chain(a, ps), qs)
    decreases |qs|
  {
    if qs == [] {
      assert ps + qs == ps;
    } else {
      var n := |qs| - 1;
      assert (ps + qs)[..|ps + qs| - 1] == ps + qs[..n];
      assert (ps + qs)[|ps + qs| - 1] == qs[n];
      ChainAppend(a, ps, qs[..n]);
    }
  }

  /** The fold folds left: `a op1 b op2 c` is `(a op1 b) op2 c`. */
  lemma ChainTwo(a: Expr, op1: BinaryOp, b: Expr, op2: BinaryOp, c: Expr)
    ensures Chain(a, [(op1, b), (op2, c)]) == BinaryExpr(op2, BinaryExpr(op1, a, b), c)
  {
    assert [(op1, b), (op2, c)][..1] == [(op1, b)];
    assert [(op1, b)][..0] == [];
    assert Chain(a, [(op1, b)]) == BinaryExpr(op1, a, b);
  }

  /** The first operand and the pairs, read back off the left spine of `n` nodes. */
  function Unchain(e: Expr, n: nat): (r: (Expr, Tail))
    ensures |r.1| <= n
    decreases n
  {
    if n == 0 || !e.BinaryExpr? then (e, [])
    else
      var (a, ps) := Unchain(e.lhs, n - 1);
      (a, ps + [(e.op, e.rhs)])
  }

  /** The fold loses nothing: the first operand and every pair, in order, can be read back. */
  lemma {:induction false} UnchainChain(a: Expr, ps: Tail)
    ensures Unchain(Chain(a, ps), |ps|) == (a, ps)
    decreases |ps|
  {
    if ps != [] {
      var n := |ps| - 1;
      UnchainChain(a, ps[..n]);
      assert ps[..n] + [ps[n]] == ps;
    }
  }

  /** The operands of a chain are its first operand and the operands of the pairs. */
  predicate AllWellFormed(ps: Tail) {
    forall i :: 0 <= i < |ps| ==> WellFormed(ps[i].1)
  }

  lemma {:induction false} ChainWellFormed(a: Expr, ps: Tail)
    requires WellFormed(a) && AllWellFormed(ps)
    ensures WellFormed(Chain(a, ps))
    decreases |ps|
  {
    if ps != [] {
      ChainWellFormed(a, ps[..|ps| - 1]);
    }
  }
}
