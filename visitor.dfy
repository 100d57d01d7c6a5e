/**
 * The default traversal of `Visitor`. `visit_expr` hands each node to the one callback its
 * variant selects. Only the function-call callback descends: it visits the arguments left to
 * right and stops at the first error. Every other default callback returns `Ok` without looking
 * inside its node.
 *
 * The counting visitor of the module's test, which overrides only the selector callback to
 * increment a field, is modelled as the class `VectorCounter`.
 */
module Visitor {
  import opened Wrappers
  import opened Ast

  /** The seven callbacks, one per variant of `Expr`. */
  datatype Callback =
    | VisitBinary | VisitFunCall | VisitVector | VisitNumber | VisitString | VisitSubquery | VisitNegation

  /** `visit_expr`: the callback a node's variant selects, and no other. */
  function Dispatch(e: Expr): (c: Callback)
    ensures c == VisitBinary <==> e.BinaryExpr?
    ensures c == VisitFunCall <==> e.FunCallExpr?
    ensures c == VisitVector <==> e.VectorExpr?
    ensures c == VisitNumber <==> e.NumberLiteralExpr?
    ensures c == VisitString <==> e.StringLiteralExpr?
    ensures c == VisitSubquery <==> e.SubQueryExpr?
    ensures c == VisitNegation <==> e.NegationExpr?
  {
    match e
    case BinaryExpr(_, _, _) => VisitBinary
    case FunCallExpr(_) => VisitFunCall
    case VectorExpr(_) => VisitVector
    case NumberLiteralExpr(_) => VisitNumber
    case StringLiteralExpr(_) => VisitString
    case SubQueryExpr(_, _, _) => VisitSubquery
    case NegationExpr(_) => VisitNegation
  }

  /**
   * The callbacks the default traversal invokes on `e`, in order: the node's own, then, for a
   * call only, those of its arguments.
   */
  function Visits(e: Expr): seq<Callback>
    decreases e, 1
  {
    [Dispatch(e)] + (if e.FunCallExpr? then VisitsAll(e.call.args) else [])
  }

  /** The callbacks invoked on a list of arguments, visited left to right. */
  function VisitsAll(es: seq<Expr>): seq<Callback>
    decreases es, 0
  {
    if es == [] then [] else VisitsAll(es[..|es| - 1]) + Visits(es[|es| - 1])
  }

  /** How many selector callbacks the traversal of `e` invokes. */
  function CountVectors(e: Expr): nat {
    multiset(Visits(e))[VisitVector]
  }

  /** The default callbacks of a binary, subquery or negation node do not look inside it. */
  lemma NoDescent(e: Expr)
    requires e.BinaryExpr? || e.SubQueryExpr? || e.NegationExpr?
    ensures Visits(e) == [Dispatch(e)]
    ensures CountVectors(e) == 0
  {
  }

  lemma VisitsAllSnoc(es: seq<Expr>, x: Expr)
    ensures VisitsAll(es + [x]) == VisitsAll(es) + Visits(x)
  {
    assert (es + [x])[..|es|] == es;
  }

  /** The first argument's callbacks come before those of the arguments after it. */
  lemma {:induction false} VisitsAllCons(x: Expr, es: seq<Expr>)
    ensures VisitsAll([x] + es) == Visits(x) + VisitsAll(es)
    decreases |es|
  {
    if es == [] {
      assert [x] + es == [x];
      assert [x][..0] == [];
    } else {
      var init, last := es[..|es| - 1], es[|es| - 1];
      assert VisitsAll([x] + init) == Visits(x) + VisitsAll(init) by {
        VisitsAllCons(x, init);
      }
      assert VisitsAll([x] + es) == VisitsAll([x] + init) + Visits(last) by {
        assert [x] + es == ([x] + init) + [last];
        VisitsAllSnoc([x] + init, last);
      }
      assert VisitsAll(es) == VisitsAll(init) + Visits(last) by {
        assert es == init + [last];
        VisitsAllSnoc(init, last);
      }
    }
  }

  // ----- The default visitor -----

  /**
   * `visit` with every callback left at its default. The error type is the visitor's own; the
   * defaults never produce one.
   */
  function DefaultVisit<E>(e: Expr): Result<(), E>
    decreases e, 1
  {
    match e
    case FunCallExpr(c) => DefaultVisitAll(c.args)
    case _ => Success(())
  }

  /** `try_for_each` over the arguments: the first error stops the walk and is returned. */
  function DefaultVisitAll<E>(es: seq<Expr>): Result<(), E>
    decreases es, 0
  {
    if es == [] then Success(())
    else
      match DefaultVisit(es[0])
      case Failure(err) => Failure(err)
      case Success(_) => DefaultVisitAll(es[1..])
  }

  /** With no callback overridden, the traversal succeeds on every tree. */
  lemma {:induction false} DefaultVisitSucceeds<E>(e: Expr)
    ensures DefaultVisit<E>(e) == Success(())
    decreases e, 1
  {
    if e.FunCallExpr? {
      DefaultVisitAllSucceeds<E>(e.call.args);
    }
  }

  lemma {:induction false} DefaultVisitAllSucceeds<E>(es: seq<Expr>)
    ensures DefaultVisitAll<E>(es) == Success(())
    decreases es, 0
  {
    if es != [] {
      DefaultVisitSucceeds<E>(es[0]);
      DefaultVisitAllSucceeds<E>(es[1..]);
    }
  }

  // ----- The counting visitor -----

  /** A visitor that overrides only the selector callback, to count the selectors it reaches. */
  class VectorCounter {
    var visitVector: nat

    constructor ()
      ensures visitVector == 0
    {
      visitVector := 0;
    }

    /** `visit_expr`: dispatch on the variant. */
    method VisitExpr(e: Expr) returns (r: Result<(), ()>)
      modifies this
      ensures r.Success?
      ensures visitVector == old(visitVector) + CountVectors(e)
      decreases e, 1
    {
      match e
      case FunCallExpr(c) =>
        r := VisitFunCall(c);
      case VectorExpr(v) =>
        r := VisitVectorExpr(v);
      case _ =>
        r := Success(());
    }

    /** The overridden selector callback: one more selector. */
    method VisitVectorExpr(v: Vector) returns (r: Result<(), ()>)
      modifies this
      ensures r.Success?
      ensures visitVector == old(visitVector) + 1
    {
      visitVector := visitVector + 1;
      r := Success(());
    }

    /** The default call callback: the arguments in order, stopping at the first error. */
    method VisitFunCall(c: FunCall) returns (r: Result<(), ()>)
      modifies this
      ensures r.Success?
      ensures visitVector == old(visitVector) + multiset(VisitsAll(c.args))[VisitVector]
      decreases c, 0
    {
      r := Success(());
      var i := 0;
      while i < |c.args| && r.Success?
        invariant 0 <= i <= |c.args|
        invariant r.Success?
        invariant visitVector == old(visitVector) + multiset(VisitsAll(c.args[..i]))[VisitVector]
        decreases |c.args| - i
      {
        VisitsAllSnoc(c.args[..i], c.args[i]);
        assert c.args[..i + 1] == c.args[..i] + [c.args[i]];
        r := VisitExpr(c.args[i]);
        i := i + 1;
      }
      assert c.args[..i] == c.args;
    }
  }

  /** `visit`: the visitor's own dispatch. */
  method Visit(e: Expr, v: VectorCounter) returns (r: Result<(), ()>)
    modifies v
    ensures r.Success?
    ensures v.visitVector == old(v.visitVector) + CountVectors(e)
  {
    r := v.VisitExpr(e);
  }

  /** The tree of `alias(sum(a) by (b), "c")`. */
  function AliasQuery(): Expr {
    var sum := FunCallAgg("sum", [VectorExprOf(V("a"))], Some(AggregationModifier(By, ["b"])));
    FunCallExprOf(FunCallOf("alias", [FunCallExprOf(sum), StringLiteralExpr(StringLiteral("c"))]))
  }

  /** A fresh counter run over `alias(sum(a) by (b), "c")` counts exactly one selector. */
  method CountAliasSelectors() returns (n: nat)
    ensures n == 1
  {
    var v := new VectorCounter();
    var r := Visit(AliasQuery(), v);
    n := v.visitVector;
    var sum := AliasQuery().call.args[0];
    assert Visits(sum.call.args[0]) == [VisitVector];
    assert VisitsAll(sum.call.args) == [VisitVector];
    assert Visits(sum) == [VisitFunCall, VisitVector];
    assert VisitsAll(AliasQuery().call.args) == [VisitFunCall, VisitVector, VisitString];
  }
}
