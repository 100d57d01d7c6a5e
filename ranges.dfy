/**
 * What a selector's range `[r]` and `offset o` clauses evaluate to, and how a duration the
 * decoder rejects travels: the duration parser's fatal failure is not caught by any `opt` or
 * `alt` on the way up, so a bad range in the first selector of a query fails the whole query.
 */
module Ranges {
  import opened Wrappers
  import opened Errors
  import opened Ast
  import opened Combinators
  import opened Lexical
  import opened Literal
  import opened Selector
  import opened Ops
  import opened Calls
  import opened Grammar
  import opened GrammarSteps
  import opened GrammarProps
  import opened Subquery

  /** Every character of `r` may be part of a duration token; `r` may be empty. */
  predicate TokenText(r: string) {
    forall i :: 0 <= i < |r| ==> InClass(r[i], LowByteAlphanumericClass)
  }

  /** What the duration parser yields for the token `r` with `t` left after it. */
  function Decoded(dec: Decoder, r: string, t: string): (q: PResult<Duration>)
    ensures q.Ok? <==> dec(r).Success?
    ensures !q.Ok? ==> q.Fail?
  {
    match dec(r)
    case Success(d) => Ok(t, d)
    case Failure(e) => Fail(Parser(InvalidDuration(e)))
  }

  // ----- Tokens -----

  /** The token of `r + t` is `r` when `t` ends the token, including when `t` is empty. */
  lemma TokenThen(r: string, t: string)
    requires TokenText(r)
    requires t == [] || !InClass(t[0], LowByteAlphanumericClass)
    ensures DurationToken(r + t) == r && (r + t)[|r|..] == t
  {
    var s := r + t;
    assert s[|r|..] == t;
    SpanSplit(s, |r|, LowByteAlphanumericClass);
    assert s[..|r|] == r;
  }

  /** The duration parser on a token and the text after it. */
  lemma DurationOf(dec: Decoder, r: string, t: string)
    requires TokenText(r)
    requires t == [] || !InClass(t[0], LowByteAlphanumericClass)
    ensures ParseDuration(dec, r + t) == Decoded(dec, r, t)
  {
    TokenThen(r, t);
  }

  // ----- The range and offset clauses -----

  /**
   * `[r]` followed by `t`: the range is the decoded token and nothing after `]` is skipped; a token
   * the decoder rejects, the empty one included, is a fatal failure with the decoder's reason.
   */
  lemma RangeOf(dec: Decoder, r: string, t: string)
    requires TokenText(r)
    ensures RangeSuffix(dec, "[" + (r + ("]" + t))) == Decoded(dec, r, t)
  {
    var z := "]" + t;
    var x := r + z;
    assert ("[" + x)[1..] == x;
    PunctFacts();
    DurationOf(dec, r, z);
    assert z[1..] == t;
  }

  /** After `[` the range fails fatally exactly when the decoder rejects the token there. */
  lemma RangeFatalIff(dec: Decoder, u: string)
    ensures RangeSuffix(dec, "[" + u).Fail? <==> dec(DurationToken(u)).Failure?
  {
    assert ("[" + u)[1..] == u;
  }

  /** `offset o` after whitespace: the offset is the decoded token. */
  lemma OffsetOf(dec: Decoder, o: string, t: string)
    requires DurationText(o)
    requires t == [] || !InClass(t[0], LowByteAlphanumericClass)
    ensures OffsetSuffix(dec, " offset " + (o + t)) == Decoded(dec, o, t)
  {
    var y := o + t;
    var w := "offset " + y;
    assert " offset " + y == " " + w;
    SkipWsSpace(w);
    SkipWsNoSpace(w);
    CiPrefixSelf("offset", " " + y);
    assert w == "offset" + (" " + y);
    assert w[6..] == " " + y;
    SkipWsSpace(y);
    DurationNoSpace(o, t);
    DurationOf(dec, o, t);
  }

  // ----- Selectors -----

  /** A name followed by punctuation that neither continues it nor opens matchers: the plain selector. */
  lemma InstantName(n: string, u: string)
    requires IsName(n, MetricPunct)
    requires u != [] && !NameChar(u[0], MetricPunct) && !IsSpace(u[0]) && u[0] != '{'
    ensures ParseInstantVec(n + u) == Ok(u, V(n))
  {
    NameFirst(n, u);
    NoLeadingSpace(n + u);
    RecognizeNameRoundTrip(n, u, MetricPunct);
    NoLeadingSpace(u);
    assert !("{" <= u);
    InstantVecName(n + u);
  }

  /** The bracket after a name: not a name character, not whitespace, not a brace. */
  lemma BracketFacts(x: string)
    ensures var u := "[" + x; u != [] && u[0] == '[' && !NameChar(u[0], MetricPunct) && !IsSpace(u[0]) && !IsAlpha(u[0])
  {
  }

  /**
   * `n[r]` with no `offset` after it: the selector `n` over the range `r`, and the text after
   * `]` left as it is.
   */
  lemma SelectorRange(dec: Decoder, n: string, r: string, t: string)
    requires IsName(n, MetricPunct) && TokenText(r) && dec(r).Success?
    requires !CiPrefix("offset", SkipWs(t))
    ensures ParseVector(dec, n + ("[" + (r + ("]" + t)))) == Ok(t, V(n).(range := Some(dec(r).value)))
  {
    var u := "[" + (r + ("]" + t));
    BracketFacts(r + ("]" + t));
    InstantName(n, u);
    RangeOf(dec, r, t);
  }

  /** `n[r]` with a token the decoder rejects: the selector fails fatally with the decoder's reason. */
  lemma SelectorBadRange(dec: Decoder, n: string, r: string, t: string)
    requires IsName(n, MetricPunct) && TokenText(r) && dec(r).Failure?
    ensures ParseVector(dec, n + ("[" + (r + ("]" + t)))) == Fail(Parser(InvalidDuration(dec(r).error)))
  {
    var u := "[" + (r + ("]" + t));
    BracketFacts(r + ("]" + t));
    InstantName(n, u);
    RangeOf(dec, r, t);
  }

  /** `n[r] offset o`: both durations end up in the selector; the offset is read after the range. */
  lemma SelectorRangeOffset(dec: Decoder, n: string, r: string, o: string, t: string)
    requires IsName(n, MetricPunct) && TokenText(r) && dec(r).Success?
    requires DurationText(o) && dec(o).Success?
    requires t == [] || !InClass(t[0], LowByteAlphanumericClass)
    ensures ParseVector(dec, n + ("[" + (r + ("]" + (" offset " + (o + t)))))) ==
      Ok(t, V(n).(range := Some(dec(r).value), offset := Some(dec(o).value)))
  {
    var w := " offset " + (o + t);
    var u := "[" + (r + ("]" + w));
    BracketFacts(r + ("]" + w));
    InstantName(n, u);
    RangeOf(dec, r, w);
    OffsetOf(dec, o, t);
  }

  // ----- A fatal failure at the first atom -----

  lemma PowerFatal(dec: Decoder, s: string)
    ensures ParseAtom(dec, s).Fail? ==> ParsePower(dec, s) == Fail(ParseAtom(dec, s).err)
  {
  }

  /** Every level passes a fatal failure of its first atom on unchanged. */
  lemma {:induction false} LevelFatal(dec: Decoder, l: Level, s: string)
    requires l != PowerLevel
    ensures ParseAtom(dec, s).Fail? ==> ParseLevel(dec, l, s) == Fail(ParseAtom(dec, s).err)
    decreases Rank(l)
  {
    match l
    case MulDivModLevel => PowerFatal(dec, s);
    case PlusMinusLevel => LevelFatal(dec, MulDivModLevel, s);
    case CompareLevel => LevelFatal(dec, PlusMinusLevel, s);
    case AndUnlessLevel => LevelFatal(dec, CompareLevel, s);
    case OrLevel => LevelFatal(dec, AndUnlessLevel, s);
  }

  /** When the first atom of a query fails fatally, so does the query, with the same error. */
  lemma ExprFatal(dec: Decoder, s: string)
    ensures ParseAtom(dec, s).Fail? ==> ParseExpr(dec, s) == Fail(ParseAtom(dec, s).err)
  {
    LevelFatal(dec, OrLevel, s);
  }

  /** At `[` neither order of a call's body and aggregation modifier finds its `(`. */
  lemma NoCallTailAtBracket(dec: Decoder, u: string)
    requires u != [] && u[0] == '['
    ensures CallTail(dec, u).Err?
  {
    NoLeadingSpace(u);
    assert !("(" <= u);
    BodyNotHere(dec, u);
    assert BodyThenAggregation(dec, u).Err?;
    assert !CiPrefix("by", u) && !CiPrefix("without", u);
    NoAggregation(u);
    assert AggregationThenBody(dec, u).Err?;
  }

  /** A name followed by `[` is no call. */
  lemma NoCallBeforeBracket(dec: Decoder, n: string, x: string)
    requires IsName(n, MetricPunct)
    ensures CallAtom(dec, n + ("[" + x)).Err?
  {
    var u := "[" + x;
    BracketFacts(x);
    RecognizeNameRoundTrip(n, u, MetricPunct);
    NoCallTailAtBracket(dec, u);
  }

  /**
   * `n[r]…` where the decoder rejects `r` fails the whole query: the selector's fatal failure is
   * not an alternative the atom may skip, and every level above passes it on.
   */
  lemma BadRangeFailsQuery(dec: Decoder, n: string, r: string, t: string)
    requires IsName(n, MetricPunct) && NotNumberWord(n) && TokenText(r) && dec(r).Failure?
    ensures ParseExpr(dec, n + ("[" + (r + ("]" + t)))) == Fail(Parser(InvalidDuration(dec(r).error)))
  {
    var x := r + ("]" + t);
    var u := "[" + x;
    var s := n + u;
    BracketFacts(x);
    NameFirst(n, u);
    NameText(s);
    ParenNotHere(dec, s);
    PlusNotHere(dec, s);
    MinusNotHere(dec, s);
    NameIsNoNumber(n, u);
    NumberNotHere(s);
    NoCallBeforeBracket(dec, n, x);
    SelectorBadRange(dec, n, r, t);
    AtomOrder(dec, s);
    ExprFatal(dec, s);
  }
}
