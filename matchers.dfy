/**
 * Printing label matchers and reading them back: `name op "value"`, the braced list
 * `{m0,m1,…}` and the selector `name{…}` parse back to exactly the matchers printed, the empty
 * list `{}` included.
 */
module Matchers {
  import opened Ast
  import opened Combinators
  import opened Lexical
  import opened Literal
  import opened Selector

  /**
   * A matcher that prints to text the parser reads back: a label name, an operator, and a
   * non-empty value that does not start with whitespace and is escaped for `"`.
   */
  predicate Printable(m: LabelMatcher) {
    IsName(m.name, LabelPunct) && m.op != Unset &&
    |m.value| > 0 && !IsSpace(m.value[0]) && WellEscaped(m.value, '"')
  }

  predicate AllPrintable(ms: seq<LabelMatcher>) {
    forall i :: 0 <= i < |ms| ==> Printable(ms[i])
  }

  /** `"v"` */
  function QuotedText(v: string): string {
    ['"'] + v + ['"']
  }

  /** The canonical text of a matcher: `name op "value"` with no whitespace. */
  function MatcherText(m: LabelMatcher): string {
    m.name + (MatcherOpText(m.op) + QuotedText(m.value))
  }

  /** `,m1,m2,…` */
  function CommaMatchers(ms: seq<LabelMatcher>): string {
    if ms == [] then "" else "," + MatcherText(ms[0]) + CommaMatchers(ms[1..])
  }

  /** The canonical text of a matcher list: `{m0,m1,…}`, or `{}`. */
  function MatchersText(ms: seq<LabelMatcher>): string {
    if ms == [] then "{}" else "{" + MatcherText(ms[0]) + CommaMatchers(ms[1..]) + "}"
  }

  // ----- One matcher -----

  lemma MatcherTextThen(m: LabelMatcher, u: string)
    ensures MatcherText(m) + u == m.name + (MatcherOpText(m.op) + (QuotedText(m.value) + u))
  {
  }

  /** The value: the string literal in double quotes, and the whitespace after it. */
  lemma ValueOf(v: string, u: string)
    requires |v| > 0 && !IsSpace(v[0]) && WellEscaped(v, '"')
    ensures ParseStringLiteral(QuotedText(v) + u) == Ok(SkipWs(u), StringLiteral(v))
  {
    assert QuotedText(v) + u == [] + ['"'] + v + ['"'] + u;
    StringLiteralRoundTrip([], '"', v, u);
  }

  /** An operator followed by an opening quote is read exactly, with nothing skipped after it. */
  lemma OpOf(op: LabelMatcherOp, x: string)
    requires op != Unset && x != [] && x[0] == '"'
    ensures ParseLabelMatcherOp(MatcherOpText(op) + x) == Ok(x, op)
  {
    var t := MatcherOpText(op) + x;
    assert SkipWs(t) == t by {
      assert t[0] == MatcherOpText(op)[0];
      SkipWsNoSpace(t);
    }
    assert SkipWs(t[|MatcherOpText(op)|..]) == x by {
      assert t[|MatcherOpText(op)|..] == x;
      SkipWsNoSpace(x);
    }
    assert OpCase(op, t) by { OpCaseOf(op, x); }
    LabelMatcherOpCases(t);
  }

  /** The branch of the operator parser that `t` takes is the one for `op`. */
  predicate OpCase(op: LabelMatcherOp, t: string) {
    match op
    case Unset => false
    case NotRegexp => "!~" <= t
    case NotEqual => !("!~" <= t) && "!=" <= t
    case Regexp => !("!~" <= t) && !("!=" <= t) && "=~" <= t
    case Equal => !("!~" <= t) && !("!=" <= t) && !("=~" <= t) && "=" <= t
  }

  lemma OpCaseOf(op: LabelMatcherOp, x: string)
    requires op != Unset && x != [] && x[0] == '"'
    ensures OpCase(op, MatcherOpText(op) + x)
  {
    var t := MatcherOpText(op) + x;
    assert MatcherOpText(op) <= t;
    match op
    case NotRegexp =>
    case NotEqual => assert t[1] == '=';
    case Regexp => assert t[0] == '=';
    case Equal => assert t[0] == '=' && t[1] == '"';
  }

  /** A label name followed by an operator: the name is read exactly and nothing is skipped after it. */
  lemma NameOf(n: string, x: string)
    requires IsName(n, LabelPunct)
    requires x != [] && (x[0] == '=' || x[0] == '!')
    ensures SkipWs(n + x) == n + x && SkipWs(x) == x
    ensures ParseLabelName(n + x) == Ok(x, n)
  {
    assert (n + x)[0] == n[0];
    SkipWsNoSpace(n + x);
    SkipWsNoSpace(x);
    RecognizeNameRoundTrip(n, x, LabelPunct);
  }

  /** The three parts of a matcher, each given by its result. */
  lemma MatcherStep(s: string, x: string, y: string, w: string, m: LabelMatcher)
    requires SkipWs(s) == s && SkipWs(x) == x
    requires ParseLabelName(s) == Ok(x, m.name)
    requires ParseLabelMatcherOp(x) == Ok(y, m.op)
    requires ParseStringLiteral(y) == Ok(w, StringLiteral(m.value))
    ensures ParseLabelMatcher(s) == Ok(w, m)
  {
  }

  /** The matcher whose value is read up to `w`. */
  lemma MatcherParts(m: LabelMatcher, u: string, w: string)
    requires Printable(m)
    requires ParseStringLiteral(QuotedText(m.value) + u) == Ok(w, StringLiteral(m.value))
    ensures ParseLabelMatcher(MatcherText(m) + u) == Ok(w, m)
  {
    var y := QuotedText(m.value) + u;
    var x := MatcherOpText(m.op) + y;
    MatcherTextThen(m, u);
    assert x[0] == MatcherOpText(m.op)[0];
    NameOf(m.name, x);
    OpOf(m.op, y);
    MatcherStep(m.name + x, x, y, w, m);
  }

  /** Round trip: the canonical text of a matcher parses back to it, whatever follows. */
  lemma MatcherRoundTrip(m: LabelMatcher, u: string)
    requires Printable(m)
    ensures ParseLabelMatcher(MatcherText(m) + u) == Ok(SkipWs(u), m)
  {
    ValueOf(m.value, u);
    MatcherParts(m, u, SkipWs(u));
  }

  // ----- The list -----

  /** A matcher followed by `,` or `}`: read exactly, the delimiter left in place. */
  lemma MatcherThenDelimiter(m: LabelMatcher, u: string)
    requires Printable(m)
    requires u != [] && (u[0] == ',' || u[0] == '}')
    ensures ParseLabelMatcher(MatcherText(m) + u) == Ok(u, m)
  {
    assert ParseStringLiteral(QuotedText(m.value) + u) == Ok(u, StringLiteral(m.value)) by {
      ValueOf(m.value, u);
      SkipWsNoSpace(u);
    }
    MatcherParts(m, u, u);
  }

  lemma CommaMatchersCons(ms: seq<LabelMatcher>, t: string)
    requires |ms| > 0
    ensures CommaMatchers(ms) + t == "," + (MatcherText(ms[0]) + (CommaMatchers(ms[1..]) + t))
  {
  }

  lemma HeadTail(ms: seq<LabelMatcher>)
    requires |ms| > 0
    ensures [ms[0]] + ms[1..] == ms
  {
  }

  /** What follows a matcher in the canonical text starts with `,` or `}`. */
  lemma CommaMatchersStart(ms: seq<LabelMatcher>, t: string)
    requires t != [] && t[0] == '}'
    ensures var u := CommaMatchers(ms) + t; u != [] && (u[0] == ',' || u[0] == '}')
  {
    if ms == [] {
      assert CommaMatchers(ms) + t == t;
    }
  }

  /** One step of the list: `,` and a matcher, then the rest of the list. */
  lemma ListRestStep(m: LabelMatcher, u: string, t: string, more: seq<LabelMatcher>)
    requires ParseLabelMatcher(MatcherText(m) + u) == Ok(u, m)
    requires MatcherListRest(u) == Ok(t, more)
    ensures MatcherListRest("," + (MatcherText(m) + u)) == Ok(t, [m] + more)
  {
    var s := "," + (MatcherText(m) + u);
    assert s[1..] == MatcherText(m) + u;
    assert Tag(",", s) == Ok(MatcherText(m) + u, ",");
  }

  /** The matchers after the first, printed with their commas, are read back up to the `}`. */
  lemma {:induction false} ListRestRoundTrip(ms: seq<LabelMatcher>, t: string)
    requires AllPrintable(ms)
    requires t != [] && t[0] == '}'
    ensures MatcherListRest(CommaMatchers(ms) + t) == Ok(t, ms)
    decreases |ms|
  {
    if ms == [] {
      assert CommaMatchers(ms) + t == t;
      assert !("," <= t);
    } else {
      var u := CommaMatchers(ms[1..]) + t;
      CommaMatchersCons(ms, t);
      HeadTail(ms);
      assert Printable(ms[0]) && AllPrintable(ms[1..]);
      CommaMatchersStart(ms[1..], t);
      MatcherThenDelimiter(ms[0], u);
      ListRestRoundTrip(ms[1..], t);
      ListRestStep(ms[0], u, t, ms[1..]);
    }
  }

  // ----- The braces -----

  lemma MatchersTextCons(ms: seq<LabelMatcher>, t: string)
    requires |ms| > 0
    ensures MatchersText(ms) + t == "{" + (MatcherText(ms[0]) + (CommaMatchers(ms[1..]) + ("}" + t)))
  {
  }

  /** `{`, a first matcher, the rest of the list, then `}` and the whitespace after it. */
  lemma BracesStep(m: LabelMatcher, u: string, t: string, more: seq<LabelMatcher>)
    requires SkipWs(MatcherText(m) + u) == MatcherText(m) + u
    requires ParseLabelMatcher(MatcherText(m) + u) == Ok(u, m)
    requires MatcherListRest(u) == Ok("}" + t, more)
    ensures ParseLabelMatchers("{" + (MatcherText(m) + u)) == Ok(SkipWs(t), [m] + more)
  {
    var x := MatcherText(m) + u;
    assert MatcherList(x) == Ok("}" + t, [m] + more) by { ListStep(x, u, "}" + t, m, more); }
    BracesOf(x, "}" + t, t, [m] + more);
  }

  /** A first matcher, then the rest of the list. */
  lemma ListStep(x: string, u: string, v: string, m: LabelMatcher, more: seq<LabelMatcher>)
    requires ParseLabelMatcher(x) == Ok(u, m)
    requires MatcherListRest(u) == Ok(v, more)
    ensures MatcherList(x) == Ok(v, [m] + more)
  {
  }

  /** `{`, a list ending at `}`, then `}` and the whitespace after it. */
  lemma BracesOf(x: string, v: string, t: string, ms: seq<LabelMatcher>)
    requires SkipWs(x) == x && v == "}" + t
    requires MatcherList(x) == Ok(v, ms)
    ensures ParseLabelMatchers("{" + x) == Ok(SkipWs(t), ms)
  {
    var s := "{" + x;
    assert Ws(Tag("{", SkipWs(s))) == Ok(x, "{") by { OpenBrace(x); }
    assert Ws(Tag("}", SkipWs(v))) == Ok(SkipWs(t), "}") by { CloseBrace(t); }
  }

  lemma OpenBrace(x: string)
    requires SkipWs(x) == x
    ensures Ws(Tag("{", SkipWs("{" + x))) == Ok(x, "{")
  {
    var s := "{" + x;
    SkipWsNoSpace(s);
    assert s[1..] == x;
  }

  lemma CloseBrace(t: string)
    ensures Ws(Tag("}", SkipWs("}" + t))) == Ok(SkipWs(t), "}")
  {
    var v := "}" + t;
    SkipWsNoSpace(v);
    assert v[1..] == t;
  }

  /** `{}`: no matcher is found at `}`, and the list is empty. */
  lemma EmptyBraces(t: string)
    ensures ParseLabelMatchers(MatchersText([]) + t) == Ok(SkipWs(t), [])
  {
    var c := "}" + t;
    assert MatchersText([]) + t == "{" + c;
    assert SkipWs(c) == c by { SkipWsNoSpace(c); }
    assert MatcherList(c) == Ok(c, []) by { NoMatcherAtClose(t); }
    BracesOf(c, c, t, []);
  }

  lemma NoMatcherAtClose(t: string)
    ensures MatcherList("}" + t) == Ok("}" + t, [])
  {
    var c := "}" + t;
    SkipWsNoSpace(c);
    assert !NameStart(c[0], LabelPunct);
  }

  /** A matcher's text does not start with whitespace. */
  lemma MatcherTextStart(m: LabelMatcher, u: string)
    requires Printable(m)
    ensures SkipWs(MatcherText(m) + u) == MatcherText(m) + u
  {
    assert (MatcherText(m) + u)[0] == m.name[0];
    SkipWsNoSpace(MatcherText(m) + u);
  }

  /**
   * Round trip: the canonical text of a list of printable matchers, in braces, parses back to
   * the list; the whitespace after `}` is skipped.
   */
  lemma LabelMatchersRoundTrip(ms: seq<LabelMatcher>, t: string)
    requires AllPrintable(ms)
    ensures ParseLabelMatchers(MatchersText(ms) + t) == Ok(SkipWs(t), ms)
  {
    if ms == [] {
      EmptyBraces(t);
    } else {
      var u := CommaMatchers(ms[1..]) + ("}" + t);
      MatchersTextCons(ms, t);
      HeadTail(ms);
      assert Printable(ms[0]) && AllPrintable(ms[1..]);
      CommaMatchersStart(ms[1..], "}" + t);
      MatcherThenDelimiter(ms[0], u);
      MatcherTextStart(ms[0], u);
      ListRestRoundTrip(ms[1..], "}" + t);
      BracesStep(ms[0], u, t, ms[1..]);
    }
  }

  // ----- Selectors -----

  lemma MatchersTextStart(ms: seq<LabelMatcher>, t: string)
    ensures var x := MatchersText(ms) + t; x != [] && x[0] == '{'
  {
  }

  /**
   * `name{m0,…}` reads back as the selector with that name and those matchers, and nothing
   * else set.
   */
  lemma InstantVecRoundTrip(n: string, ms: seq<LabelMatcher>, t: string)
    requires IsName(n, MetricPunct) && AllPrintable(ms)
    ensures ParseInstantVec(n + (MatchersText(ms) + t)) == Ok(SkipWs(t), VectorLabels(n, ms))
  {
    var x := MatchersText(ms) + t;
    var s := n + x;
    MatchersTextStart(ms, t);
    assert s[0] == n[0];
    SkipWsNoSpace(s);
    SkipWsNoSpace(x);
    RecognizeNameRoundTrip(n, x, MetricPunct);
    LabelMatchersRoundTrip(ms, t);
    SkipWsIdempotent(t);
  }

  /** `{m0,…}` with no name reads back as the unnamed selector with those matchers. */
  lemma UnnamedVecRoundTrip(ms: seq<LabelMatcher>, t: string)
    requires AllPrintable(ms)
    ensures ParseInstantVec(MatchersText(ms) + t) == Ok(SkipWs(t), VectorLabels("", ms))
  {
    var s := MatchersText(ms) + t;
    MatchersTextStart(ms, t);
    SkipWsNoSpace(s);
    assert !NameStart(s[0], MetricPunct);
    LabelMatchersRoundTrip(ms, t);
    SkipWsIdempotent(t);
  }

  // ----- The source's own example -----

  /** `{job=~".*",method="get"}` reads back as its two matchers, nothing left over. */
  lemma JobMethodExample()
    ensures ParseLabelMatchers("{job=~\".*\",method=\"get\"}") ==
      Ok("", [LabelMatcher(Regexp, "job", ".*"), LabelMatcher(LabelMatcherOp.Equal, "method", "get")])
  {
    var ms := [LabelMatcher(Regexp, "job", ".*"), LabelMatcher(LabelMatcherOp.Equal, "method", "get")];
    assert AllPrintable(ms) by { JobMethodPrintable(); }
    assert MatchersText(ms) + "" == "{job=~\".*\",method=\"get\"}" by { JobMethodText(); }
    LabelMatchersRoundTrip(ms, "");
  }

  lemma JobMethodPrintable()
    ensures AllPrintable([LabelMatcher(Regexp, "job", ".*"), LabelMatcher(LabelMatcherOp.Equal, "method", "get")])
  {
    assert Printable(LabelMatcher(Regexp, "job", ".*"));
    assert Printable(LabelMatcher(LabelMatcherOp.Equal, "method", "get"));
  }

  lemma JobMethodText()
    ensures MatchersText([LabelMatcher(Regexp, "job", ".*"), LabelMatcher(LabelMatcherOp.Equal, "method", "get")]) ==
      "{job=~\".*\",method=\"get\"}"
  {
    var job := LabelMatcher(Regexp, "job", ".*");
    var get := LabelMatcher(LabelMatcherOp.Equal, "method", "get");
    assert MatchersText([job, get]) == "{" + MatcherText(job) + ("," + MatcherText(get) + "}") by { TwoMatchersText(job, get); }
    assert MatcherText(job) == "job=~\".*\"";
    assert MatcherText(get) == "method=\"get\"";
  }

  lemma TwoMatchersText(a: LabelMatcher, b: LabelMatcher)
    ensures MatchersText([a, b]) == "{" + MatcherText(a) + ("," + MatcherText(b) + "}")
  {
    assert [a, b][1..] == [b] && [b][1..] == [];
    assert CommaMatchers([b]) == "," + MatcherText(b) + "";
  }
}
