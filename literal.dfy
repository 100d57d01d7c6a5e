/**
 * Literal tokens: number literals (the floating-point grammar of the combinator library's
 * `double`) and string literals in one of three delimiters, kept raw with their escapes.
 */
module Literal {
  import Errors
  import opened Ast
  import opened Combinators

  // ----- String literals -----

  /**
   * `escaped(is_not(d\), '\', one_of(d\))` scanning `c` from position `i`: ordinary characters
   * are skipped, a backslash must be followed by the delimiter or a backslash, and the scan
   * stops before the first unescaped delimiter. Stopping at position 0 is an error.
   */
  function Escaped(c: string, d: char, i: nat): (r: PResult<string>)
    requires i <= |c|
    ensures r.Ok? || r.Err?
    ensures r.Ok? ==> i <= |r.val| <= |c| && r.val == c[..|r.val|] && r.rest == c[|r.val|..]
    ensures r.Ok? ==> r.rest == [] || (r.rest[0] == d && |r.val| > 0)
    decreases |c| - i
  {
    if i == |c| then Ok([], c)
    else if c[i] == '\\' then
      if i + 1 >= |c| then Err(Errors.FromErrorKind(c, Errors.Escaped))
      else if c[i + 1] == d || c[i + 1] == '\\' then Escaped(c, d, i + 2)
      else Err(Errors.FromErrorKind(c[i + 1..], Errors.OneOf))
    else if c[i] == d then
      if i == 0 then Err(Errors.FromErrorKind(c, Errors.Escaped)) else Ok(c[i..], c[..i])
    else Escaped(c, d, i + 1)
  }

  /**
   * Text a delimiter-`d` literal can carry: every backslash starts an escape of `d` or of a
   * backslash, and no delimiter appears unescaped.
   */
  predicate WellEscaped(c: string, d: char)
    decreases |c|
  {
    if c == [] then true
    else if c[0] == '\\' then |c| >= 2 && (c[1] == d || c[1] == '\\') && WellEscaped(c[2..], d)
    else c[0] != d && WellEscaped(c[1..], d)
  }

  /** What the scanner accepts from position `i` on is well escaped. */
  lemma {:induction false} EscapedSound(c: string, d: char, i: nat)
    requires i <= |c|
    ensures var r := Escaped(c, d, i); r.Ok? ==> WellEscaped(c[i..|r.val|], d)
    decreases |c| - i
  {
    var r := Escaped(c, d, i);
    if i == |c| {
    } else if c[i] == '\\' {
      if i + 1 < |c| && (c[i + 1] == d || c[i + 1] == '\\') {
        EscapedSound(c, d, i + 2);
        if r.Ok? {
          assert c[i..|r.val|][2..] == c[i + 2..|r.val|];
        }
      }
    } else if c[i] == d {
    } else {
      EscapedSound(c, d, i + 1);
      if r.Ok? {
        assert c[i..|r.val|][1..] == c[i + 1..|r.val|];
      }
    }
  }

  /** A well-escaped non-empty text followed by its delimiter is scanned exactly. */
  lemma {:induction false} EscapedComplete(c: string, d: char, t: string, i: nat)
    requires d != '\\' && i <= |c| && |c| > 0 && WellEscaped(c[i..], d)
    ensures Escaped(c + [d] + t, d, i) == Ok([d] + t, c)
    decreases |c| - i
  {
    var x := c + [d] + t;
    if i == |c| {
      assert x[i] == d;
      assert x[i..] == [d] + t && x[..i] == c;
    } else if c[i] == '\\' {
      assert c[i..][2..] == c[i + 2..];
      EscapedComplete(c, d, t, i + 2);
    } else {
      assert c[i..][1..] == c[i + 1..];
      EscapedComplete(c, d, t, i + 1);
    }
  }

  /** `delimited(ws(tag(d)), escaped(…), ws(tag(d)))`. */
  function ParseQuoted(s: string, d: char): (r: PResult<string>)
    ensures r.Ok? || r.Err?
    ensures r.Ok? ==> |r.rest| < |s| && |r.val| > 0 && WellEscaped(r.val, d)
  {
    var open := Ws(Tag([d], SkipWs(s)));
    if !open.Ok? then Propagate(open)
    else
      var body := Escaped(open.rest, d, 0);
      if !body.Ok? then Propagate(body)
      else
        var close := Ws(Tag([d], SkipWs(body.rest)));
        if !close.Ok? then Propagate(close)
        else
          QuotedBody(s, open.rest, body, close.rest, d);
          Ok(close.rest, body.val)
  }

  lemma QuotedBody(s: string, o: string, body: PResult<string>, rest: string, d: char)
    requires |o| < |s| && body == Escaped(o, d, 0) && body.Ok?
    requires |rest| < |body.rest|
    ensures |rest| < |s| && |body.val| > 0 && WellEscaped(body.val, d)
  {
    EscapedSound(o, d, 0);
    assert o[0..|body.val|] == body.val;
  }

  /** The three delimiters, tried in this order. */
  predicate IsDelimiter(d: char) {
    d == '"' || d == '\'' || d == '`'
  }

  function ParseStringLiteral(s: string): (r: PResult<StringLiteral>)
    ensures r.Ok? || r.Err?
    ensures r.Ok? ==> |r.rest| < |s| && |r.val.value| > 0
    ensures r.Ok? ==> exists d :: IsDelimiter(d) && WellEscaped(r.val.value, d)
  {
    var q := Alt(ParseQuoted(s, '"'), Alt(ParseQuoted(s, '\''), ParseQuoted(s, '`'), s), s);
    if !q.Ok? then Propagate(q)
    else
      assert IsDelimiter('"') && IsDelimiter('\'') && IsDelimiter('`');
      Ok(q.rest, StringLiteral(q.val))
  }

  /** The three steps of `delimited`, each given by its result. */
  lemma QuotedStep(s: string, d: char, after: string, c: string, t: string)
    requires Ws(Tag([d], SkipWs(s))) == Ok(after, [d])
    requires Escaped(after, d, 0) == Ok([d] + t, c)
    requires Ws(Tag([d], SkipWs([d] + t))) == Ok(SkipWs(t), [d])
    ensures ParseQuoted(s, d) == Ok(SkipWs(t), c)
  {
  }

  /** The opening delimiter after whitespace, then the whitespace-free content. */
  lemma OpenStep(w: string, d: char, after: string)
    requires forall i :: 0 <= i < |w| ==> IsSpace(w[i])
    requires IsDelimiter(d) && after != [] && !IsSpace(after[0])
    ensures Ws(Tag([d], SkipWs(w + [d] + after))) == Ok(after, [d])
  {
    var u := [d] + after;
    assert w + [d] + after == w + u;
    SkipWsPrefix(w, u);
    assert u[1..] == after && [d] <= u;
    SkipWsNoSpace(after);
  }

  /** The closing delimiter, then the whitespace after it. */
  lemma CloseStep(d: char, t: string)
    requires IsDelimiter(d)
    ensures Ws(Tag([d], SkipWs([d] + t))) == Ok(SkipWs(t), [d])
  {
    SkipWsNoSpace([d] + t);
    assert ([d] + t)[1..] == t && [d] <= [d] + t;
  }

  /** A delimited text parses back to itself with the matching delimiter. */
  lemma QuotedRoundTrip(w: string, d: char, c: string, t: string)
    requires forall i :: 0 <= i < |w| ==> IsSpace(w[i])
    requires IsDelimiter(d) && WellEscaped(c, d) && |c| > 0 && !IsSpace(c[0])
    ensures ParseQuoted(w + [d] + c + [d] + t, d) == Ok(SkipWs(t), c)
  {
    var s := w + [d] + c + [d] + t;
    var after := c + [d] + t;
    assert s == w + [d] + after;
    assert after[0] == c[0];
    OpenStep(w, d, after);
    assert c[0..] == c;
    EscapedComplete(c, d, t, 0);
    assert c + [d] + t == after;
    CloseStep(d, t);
    QuotedStep(s, d, after, c, t);
  }

  /** A text opened by one delimiter is not taken by the parser of another. */
  lemma QuotedOtherDelimiter(w: string, d: char, e: char, x: string)
    requires forall i :: 0 <= i < |w| ==> IsSpace(w[i])
    requires IsDelimiter(d) && d != e
    ensures ParseQuoted(w + [d] + x, e).Err?
  {
    assert w + [d] + x == w + ([d] + x);
    SkipWsPrefix(w, [d] + x);
  }

  /**
   * Round trip: a well-escaped text that does not begin with whitespace, written between two
   * delimiters after optional whitespace, parses back to exactly that text (escapes kept),
   * and the whitespace after the closing delimiter is consumed.
   */
  lemma StringLiteralRoundTrip(w: string, d: char, c: string, t: string)
    requires forall i :: 0 <= i < |w| ==> IsSpace(w[i])
    requires IsDelimiter(d) && WellEscaped(c, d) && |c| > 0 && !IsSpace(c[0])
    ensures ParseStringLiteral(w + [d] + c + [d] + t) == Ok(SkipWs(t), StringLiteral(c))
  {
    var s := w + [d] + c + [d] + t;
    assert s == w + [d] + (c + [d] + t);
    QuotedRoundTrip(w, d, c, t);
    if d != '"' {
      QuotedOtherDelimiter(w, d, '"', c + [d] + t);
    }
    if d == '`' {
      QuotedOtherDelimiter(w, d, '\'', c + [d] + t);
    }
  }

  lemma {:induction false} SkipWsPrefix(w: string, u: string)
    requires forall i :: 0 <= i < |w| ==> IsSpace(w[i])
    requires u == [] || !IsSpace(u[0])
    ensures SkipWs(w + u) == u
    decreases |w|
  {
    if w == [] {
      assert w + u == u;
      SkipWsNoSpace(u);
    } else {
      assert (w + u)[1..] == w[1..] + u;
      SkipWsPrefix(w[1..], u);
    }
  }

  // ----- Number literals -----

  function SignLength(s: string): (n: nat)
    ensures n <= 1 && n <= |s|
  {
    if |s| > 0 && (s[0] == '+' || s[0] == '-') then 1 else 0
  }

  /** The length of `digits ('.' digits?)?` or `'.' digits` at the start of `t`; 0 if neither. */
  function MantissaLength(t: string): (n: nat)
    ensures n <= |t|
    ensures n > 0 <==> (|t| > 0 && IsDigit(t[0])) || (|t| > 1 && t[0] == '.' && IsDigit(t[1]))
  {
    var d := Span(t, DigitClass);
    if d > 0 then
      if d < |t| && t[d] == '.' then d + 1 + Span(t[d + 1..], DigitClass) else d
    else if |t| > 0 && t[0] == '.' && Span(t[1..], DigitClass) > 0 then 1 + Span(t[1..], DigitClass)
    else 0
  }

  /**
   * `recognize_float`: optional sign, mantissa, then an optional exponent `e`/`E`, optional
   * sign and digits. Once the exponent letter is seen its digits are mandatory: their absence is
   * a fatal failure. Errors report the input and the `Float` kind.
   */
  function RecognizeFloat(s: string): (r: PResult<string>)
    ensures !r.Panic?
    ensures r.Err? <==> MantissaLength(s[SignLength(s)..]) == 0
    ensures r.Ok? ==> 0 < |r.val| <= |s| && r.val == s[..|r.val|] && r.rest == s[|r.val|..]
    ensures !r.Ok? ==> r.err == Errors.FromErrorKind(s, Errors.Float)
  {
    var a := SignLength(s);
    var m := MantissaLength(s[a..]);
    if m == 0 then Err(Errors.FromErrorKind(s, Errors.Float))
    else
      var u := s[a + m..];
      if |u| > 0 && (u[0] == 'e' || u[0] == 'E') then
        var b := SignLength(u[1..]);
        var ed := Span(u[1 + b..], DigitClass);
        if ed == 0 then Fail(Errors.FromErrorKind(s, Errors.Float))
        else
          var n := a + m + 1 + b + ed;
          Ok(s[n..], s[..n])
      else
        Ok(u, s[..a + m])
  }

  /** A case-insensitive special value; any mismatch is reported as a `Float` error. */
  function FloatKeyword(k: string, s: string): (r: PResult<string>)
    ensures r.Ok? || r.Err?
    ensures r.Ok? <==> CiPrefix(k, s)
    ensures r.Ok? ==> r.val == s[..|k|] && r.rest == s[|k|..]
  {
    var t := TagNoCase(k, s);
    if t.Ok? then t else Err(Errors.FromErrorKind(s, Errors.Float))
  }

  /** `recognize_float_or_exceptions`: a float, else `nan`, `inf` or `infinity` in any case. */
  function RecognizeNumber(s: string): (r: PResult<string>)
    ensures !r.Panic?
    ensures r.Fail? <==> RecognizeFloat(s).Fail?
    ensures r.Fail? ==> r.err == Errors.FromErrorKind(s, Errors.Float)
    ensures RecognizeFloat(s).Ok? ==> r == RecognizeFloat(s)
    ensures r.Ok? ==> 0 < |r.val| <= |s| && r.val == s[..|r.val|] && r.rest == s[|r.val|..]
  {
    Alt(RecognizeFloat(s), Alt(FloatKeyword("nan", s), Alt(FloatKeyword("inf", s), FloatKeyword("infinity", s), s), s), s)
  }

  function DigitValue(c: char): (v: nat)
    ensures v <= 9
  {
    if IsDigit(c) then c as int - '0' as int else 0
  }

  /** The value of a string of decimal digits. */
  function DigitsValue(ds: string): nat
    decreases |ds|
  {
    if ds == [] then 0 else DigitsValue(ds[..|ds| - 1]) * 10 + DigitValue(ds[|ds| - 1])
  }

  function Pow10(n: nat): (p: real)
    ensures p >= 1.0
  {
    if n == 0 then 1.0 else 10.0 * Pow10(n - 1)
  }

  function Scale(e: int): real {
    if e >= 0 then Pow10(e) else 1.0 / Pow10(-e)
  }

  /** The signed exponent written after `e`/`E`. */
  function ExponentValue(x: string): int {
    var b := SignLength(x);
    var v: int := DigitsValue(x[b..]);
    if b == 1 && x[0] == '-' then -v else v
  }

  /** The exact decimal value of a token the recognizer accepted. */
  function FloatValue(tok: string): Number {
    if LowerString(tok) == "nan" then NaN
    else if LowerString(tok) == "inf" || LowerString(tok) == "infinity" then Infinity
    else
      var a := SignLength(tok);
      var body := tok[a..];
      var ip := Span(body, DigitClass);
      var afterInt := body[ip..];
      var hasDot := |afterInt| > 0 && afterInt[0] == '.';
      var fracDigits := if hasDot then afterInt[1..][..Span(afterInt[1..], DigitClass)] else [];
      var expPart := afterInt[(if hasDot then 1 + |fracDigits| else 0)..];
      var e := if |expPart| > 1 then ExponentValue(expPart[1..]) else 0;
      var magnitude := (DigitsValue(body[..ip]) as real + DigitsValue(fracDigits) as real / Pow10(|fracDigits|)) * Scale(e);
      Finite(if a == 1 && tok[0] == '-' then -magnitude else magnitude)
  }

  /** `double`: the recognized token converted to its value. */
  function ParseNumberLiteral(s: string): (r: PResult<NumberLiteral>)
    ensures !r.Panic?
    ensures r.Ok? <==> RecognizeNumber(s).Ok?
    ensures r.Fail? <==> RecognizeFloat(s).Fail?
    ensures r.Fail? ==> r.err == Errors.FromErrorKind(s, Errors.Float)
    ensures r.Ok? ==> |r.rest| < |s|
  {
    var t := RecognizeNumber(s);
    if !t.Ok? then Propagate(t) else Ok(t.rest, NumberLiteral(FloatValue(t.val)))
  }
}
