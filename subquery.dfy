/**
 * The subquery suffix of `parse_expr`: `[range:resolution]` after an expression. The range and
 * the resolution are read as duration tokens and handed to the decoder; the resolution, though
 * written as optional, is in effect required, because the duration parser fails fatally on an
 * empty token instead of letting `opt` fall back to `None`.
 */
module Subquery {
  import opened Wrappers
  import opened Errors
  import opened Ast
  import opened Combinators
  import opened Selector
  import opened Ops
  import opened Grammar
  import opened GrammarSteps

  /** A non-empty duration token: every character has an ASCII alphanumeric low byte. */
  predicate DurationText(r: string) {
    r != [] && forall i :: 0 <= i < |r| ==> InClass(r[i], LowByteAlphanumericClass)
  }

  /** The token of `r + u` is `r` when `u` starts with a character outside the token class. */
  lemma DurationThen(r: string, u: string)
    requires forall i :: 0 <= i < |r| ==> InClass(r[i], LowByteAlphanumericClass)
    requires u != [] && !InClass(u[0], LowByteAlphanumericClass)
    ensures DurationToken(r + u) == r
  {
    var s := r + u;
    assert s[|r|..] == u;
    SpanSplit(s, |r|, LowByteAlphanumericClass);
    assert s[..|r|] == r;
  }

  /** A duration token never starts with whitespace. */
  lemma DurationNoSpace(r: string, u: string)
    requires DurationText(r)
    ensures SkipWs(r + u) == r + u
  {
    var c := (r + u)[0];
    assert c == r[0] && InClass(r[0], LowByteAlphanumericClass);
    assert !IsSpace(c);
    SkipWsNoSpace(r + u);
  }

  /** The punctuation of the suffix is neither whitespace nor part of a duration token. */
  lemma PunctFacts()
    ensures !IsSpace('[') && !IsSpace(':') && !IsSpace(']')
    ensures !InClass(':', LowByteAlphanumericClass) && !InClass(']', LowByteAlphanumericClass)
  {
  }

  /** A punctuation tag at the head of the input, then the whitespace after it skipped. */
  lemma TagStep(c: char, x: string)
    requires !IsSpace(c)
    ensures Ws(Combinators.Tag([c], SkipWs([c] + x))) == Ok(SkipWs(x), [c])
  {
    SkipWsNoSpace([c] + x);
    assert ([c] + x)[1..] == x;
  }

  /** A decodable token followed by a character outside the token class. */
  lemma DurationStep(dec: Decoder, r: string, u: string)
    requires DurationText(r) && dec(r).Success?
    requires u != [] && !InClass(u[0], LowByteAlphanumericClass)
    ensures ParseDuration(dec, r + u) == Ok(u, dec(r).value)
  {
    DurationThen(r, u);
    assert (r + u)[|r|..] == u;
  }

  /** `[r:q]` with two decodable tokens yields both durations and skips the whitespace after `]`. */
  lemma SuffixRoundTrip(dec: Decoder, r: string, q: string, t: string)
    requires DurationText(r) && DurationText(q)
    requires dec(r).Success? && dec(q).Success?
    ensures SubquerySuffix(dec, "[" + (r + (":" + (q + ("]" + t))))) ==
      Ok(SkipWs(t), (dec(r).value, Some(dec(q).value)))
  {
    var z := "]" + t;
    var w := q + z;
    var y := ":" + w;
    var x := r + y;
    PunctFacts();
    TagStep('[', x);
    DurationNoSpace(r, y);
    assert Ws(Combinators.Tag("[", SkipWs("[" + x))) == Ok(x, "[");
    DurationStep(dec, r, y);
    TagStep(':', w);
    DurationNoSpace(q, z);
    assert Ws(Combinators.Tag(":", SkipWs(y))) == Ok(w, ":");
    DurationStep(dec, q, z);
    assert Opt(ParseDuration(dec, w), w) == Ok(z, Some(dec(q).value));
    TagStep(']', t);
  }

  /**
   * `[r:]`: the resolution's token is empty, so the decoder's verdict on the empty text decides;
   * with a decoder that rejects it the suffix fails fatally instead of reading no resolution.
   */
  lemma EmptyResolutionFails(dec: Decoder, r: string, t: string)
    requires DurationText(r) && dec(r).Success? && dec("").Failure?
    ensures SubquerySuffix(dec, "[" + (r + (":]" + t))) == Fail(Parser(InvalidDuration(dec("").error)))
  {
    var z := "]" + t;
    var y := ":" + z;
    var x := r + y;
    assert ":]" + t == y;
    PunctFacts();
    TagStep('[', x);
    DurationNoSpace(r, y);
    assert Ws(Combinators.Tag("[", SkipWs("[" + x))) == Ok(x, "[");
    DurationStep(dec, r, y);
    TagStep(':', z);
    assert Ws(Combinators.Tag(":", SkipWs(y))) == Ok(z, ":");
    DurationThen([], z);
    assert [] + z == z;
    assert ParseDuration(dec, z) == Fail(Parser(InvalidDuration(dec("").error)));
  }

  /** Text that does not start with `[`, after whitespace, carries no subquery suffix. */
  lemma NoSuffix(dec: Decoder, u: string)
    requires SkipWs(u) == [] || SkipWs(u)[0] != '['
    ensures SubquerySuffix(dec, u).Err?
  {
  }

  // ----- parse_expr -----

  /** An expression followed by `[r:q]` becomes a subquery over it with both durations. */
  lemma SubqueryOf(dec: Decoder, s: string, e: Expr, r: string, q: string, t: string)
    requires ParseLevel(dec, OrLevel, s) == Ok("[" + (r + (":" + (q + ("]" + t)))), e)
    requires DurationText(r) && DurationText(q)
    requires dec(r).Success? && dec(q).Success?
    ensures ParseExpr(dec, s) == Ok(SkipWs(t), SubQueryExpr(e, Some(dec(r).value), Some(dec(q).value)))
  {
    SuffixRoundTrip(dec, r, q, t);
    ExprSuffix(dec, s);
  }

  /** With no `[` after it, the loosest level's result is the whole expression, rest unchanged. */
  lemma PlainExpr(dec: Decoder, s: string, e: Expr, u: string)
    requires ParseLevel(dec, OrLevel, s) == Ok(u, e)
    requires SkipWs(u) == [] || SkipWs(u)[0] != '['
    ensures ParseExpr(dec, s) == Ok(u, e)
  {
    NoSuffix(dec, u);
    ExprNoSuffix(dec, s);
  }

  /** `e[r:]` fails the whole parse when the decoder rejects the empty token. */
  lemma MissingResolution(dec: Decoder, s: string, e: Expr, r: string, t: string)
    requires ParseLevel(dec, OrLevel, s) == Ok("[" + (r + (":]" + t)), e)
    requires DurationText(r) && dec(r).Success? && dec("").Failure?
    ensures ParseExpr(dec, s) == Fail(Parser(InvalidDuration(dec("").error)))
  {
    EmptyResolutionFails(dec, r, t);
    ExprFail(dec, s);
  }
}
