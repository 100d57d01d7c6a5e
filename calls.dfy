/**
 * The parts of function-call parsing that do not recurse into expressions: the aggregation
 * modifier (`by (…)` / `without (…)`) and the filter that drops the phantom arguments the
 * argument list collects.
 */
module Calls {
  import opened Wrappers
  import opened Ast
  import opened Combinators
  import opened Grouping

  // ----- Phantom arguments -----

  /** The arguments that are not phantoms, in their order. */
  function DropPhantoms(a: seq<Expr>): (r: seq<Expr>)
    ensures |r| <= |a|
    ensures forall i :: 0 <= i < |r| ==> !IsPhantom(r[i]) && r[i] in a
    ensures forall i :: 0 <= i < |a| && !IsPhantom(a[i]) ==> a[i] in r
    decreases |a|
  {
    if a == [] then []
    else if IsPhantom(a[0]) then DropPhantoms(a[1..])
    else [a[0]] + DropPhantoms(a[1..])
  }

  /** The filter works element by element: it commutes with concatenation. */
  lemma {:induction false} DropPhantomsAppend(a: seq<Expr>, b: seq<Expr>)
    ensures DropPhantoms(a + b) == DropPhantoms(a) + DropPhantoms(b)
    decreases |a|
  {
    if a == [] {
      assert a + b == b;
    } else {
      assert (a + b)[1..] == a[1..] + b;
      DropPhantomsAppend(a[1..], b);
    }
  }

  /** An argument list without phantoms is kept as it is. */
  lemma {:induction false} DropPhantomsNone(a: seq<Expr>)
    requires forall i :: 0 <= i < |a| ==> !IsPhantom(a[i])
    ensures DropPhantoms(a) == a
    decreases |a|
  {
    if a != [] {
      DropPhantomsNone(a[1..]);
    }
  }

  /** Dropping is idempotent. */
  lemma DropPhantomsIdempotent(a: seq<Expr>)
    ensures DropPhantoms(DropPhantoms(a)) == DropPhantoms(a)
  {
    DropPhantomsNone(DropPhantoms(a));
  }

  /**
   * The loop of `parse_function_call_args`: every argument that is not a selector with an empty
   * name and no matchers is pushed onto a new list.
   */
  method FilterArgs(a: seq<Expr>) returns (args: seq<Expr>)
    ensures args == DropPhantoms(a)
  {
    args := [];
    var i := 0;
    while i < |a|
      invariant 0 <= i <= |a|
      invariant args == DropPhantoms(a[..i])
    {
      var v := a[i];
      assert a[..i + 1] == a[..i] + [v];
      DropPhantomsAppend(a[..i], [v]);
      if v.VectorExpr? {
        if v.vector.name != [] || v.vector.labelMatchers != [] {
          args := args + [v];
        }
      } else {
        args := args + [v];
      }
      i := i + 1;
    }
    assert a[..|a|] == a;
  }

  // ----- Aggregation modifier -----

  /** The action a keyword text selects; only the exact lower-case spellings select one. */
  function AggregationActionOf(keyword: string): (a: Option<AggregationAction>)
    ensures a.Some? <==> keyword == "by" || keyword == "without"
    ensures a == Some(By) <==> keyword == "by"
  {
    if keyword == "by" then Some(By)
    else if keyword == "without" then Some(Without)
    else None
  }

  /** `alt((ws(tag_no_case("by")), ws(tag_no_case("without"))))`. */
  function AggregationKeyword(s: string): (r: PResult<string>)
    ensures r.Ok? || r.Err?
    ensures r.Ok? <==> CiPrefix("by", SkipWs(s)) || CiPrefix("without", SkipWs(s))
    ensures r.Ok? ==> |r.rest| < |s|
    ensures r.Ok? && r.val == "by" ==> "by" <= SkipWs(s)
    ensures r.Ok? && r.val == "without" ==> "without" <= SkipWs(s)
  {
    var t := SkipWs(s);
    Alt(Ws(TagNoCase("by", t)), Ws(TagNoCase("without", t)), s)
  }

  /**
   * `parse_aggregation_modifier`: the keyword in any case, then a grouping label list. A
   * keyword written in any other case than lower case reaches the panic arm.
   */
  function ParseAggregationModifier(s: string): (r: PResult<AggregationModifier>)
    ensures r.Ok? || r.Err? || r.Panic?
    ensures r.Ok? ==> |r.rest| < |s| && AllLabelNames(r.val.labels)
    ensures r.Ok? ==> (r.val.action == By ==> "by" <= SkipWs(s)) && (r.val.action == Without ==> "without" <= SkipWs(s))
    ensures !(CiPrefix("by", SkipWs(s)) || CiPrefix("without", SkipWs(s))) ==> r.Err?
    ensures r.Panic? ==> var kw := AggregationKeyword(s); kw.Ok? && kw.val != "by" && kw.val != "without"
  {
    var kw := AggregationKeyword(s);
    if !kw.Ok? then Propagate(kw)
    else
      var ls := Ws(ParseGroupingLabels(SkipWs(kw.rest)));
      if !ls.Ok? then Propagate(ls)
      else
        match AggregationActionOf(kw.val)
        case Some(action) => Ok(ls.rest, AggregationModifier(action, ls.val))
        case None => Panic
  }

  function AggregationText(a: AggregationAction): string {
    match a
    case By => "by"
    case Without => "without"
  }

  /** Round trip: `by (l1,l2)` and `without (l1,l2)` read back as the modifier. */
  lemma AggregationRoundTrip(a: AggregationAction, ls: seq<string>, t: string)
    requires AllLabelNames(ls)
    ensures ParseAggregationModifier(AggregationText(a) + (" " + (GroupingText(ls) + t))) == Ok(SkipWs(t), AggregationModifier(a, ls))
  {
    var g := GroupingText(ls) + t;
    var x := " " + g;
    var kw := AggregationText(a);
    assert SkipWs(g) == g by {
      GroupingTextStart(ls, t);
      SkipWsNoSpace(g);
    }
    assert AggregationKeyword(kw + x) == Ok(g, kw) by {
      KeywordThenSpace(a, x);
      SkipWsSpace(g);
    }
    assert ParseGroupingLabels(g) == Ok(t, ls) by {
      GroupingRoundTrip(ls, "", t);
    }
    assert (if kw == "by" then By else Without) == a;
    AggregationStep(kw + x, g, kw, t, ls);
  }

  /** The keyword, written in lower case, is read by its own alternative. */
  lemma KeywordThenSpace(a: AggregationAction, x: string)
    ensures AggregationKeyword(AggregationText(a) + x) == Ok(SkipWs(x), AggregationText(a))
  {
    var kw := AggregationText(a);
    var s := kw + x;
    assert SkipWs(s) == s by {
      assert s[0] == kw[0];
      SkipWsNoSpace(s);
    }
    assert TagNoCase(kw, s) == Ok(x, kw) by {
      CiPrefixSelf(kw, x);
      assert s[..|kw|] == kw && s[|kw|..] == x;
    }
    if a == Without {
      assert !CiPrefix("by", s) by { assert Lower(s[0]) != Lower('b'); }
    }
  }

  lemma AggregationStep(s: string, x: string, kw: string, t: string, ls: seq<string>)
    requires AggregationKeyword(s) == Ok(x, kw)
    requires SkipWs(x) == x && ParseGroupingLabels(x) == Ok(t, ls)
    requires kw == "by" || kw == "without"
    ensures ParseAggregationModifier(s) == Ok(SkipWs(t), AggregationModifier(if kw == "by" then By else Without, ls))
  {
  }

  /** `BY (…)` passes the case-insensitive keyword and then reaches the panic arm. */
  lemma UpperByPanics(ls: seq<string>, t: string)
    requires AllLabelNames(ls)
    ensures ParseAggregationModifier("BY" + (GroupingText(ls) + t)) == Panic
  {
    var x := GroupingText(ls) + t;
    var s := "BY" + x;
    assert SkipWs(x) == x by {
      GroupingTextStart(ls, t);
      SkipWsNoSpace(x);
    }
    assert AggregationKeyword(s) == Ok(x, "BY") by {
      assert SkipWs(s) == s by {
        assert s[0] == 'B';
        SkipWsNoSpace(s);
      }
      assert CiPrefix("by", s) by {
        assert s[0] == 'B' && s[1] == 'Y';
      }
      assert s[..2] == "BY" && s[2..] == x;
    }
    GroupingRoundTrip(ls, "", t);
    UpperStep(s, x, t, ls);
  }

  lemma UpperStep(s: string, x: string, t: string, ls: seq<string>)
    requires AggregationKeyword(s) == Ok(x, "BY")
    requires SkipWs(x) == x && ParseGroupingLabels(x) == Ok(t, ls)
    ensures ParseAggregationModifier(s) == Panic
  {
  }
}
