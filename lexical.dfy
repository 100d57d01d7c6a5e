/**
 * Metric and label names: `[a-zA-Z_:][a-zA-Z0-9_:]*` and `[a-zA-Z_][a-zA-Z0-9_]*`, recognized
 * by a leading alphabetic or punctuation run followed by any number of alphanumeric or
 * punctuation runs.
 */
module Lexical {
  import Errors
  import opened Combinators

  /** The punctuation allowed in metric names. */
  const MetricPunct: set<char> := {'_', ':'}

  /** The punctuation allowed in label names. */
  const LabelPunct: set<char> := {'_'}

  predicate NameStart(c: char, punct: set<char>) {
    IsAlpha(c) || c in punct
  }

  predicate NameChar(c: char, punct: set<char>) {
    InClass(c, NameClass(punct))
  }

  /** `n` matches `[a-zA-Z<punct>][a-zA-Z0-9<punct>]*`. */
  predicate IsName(n: string, punct: set<char>) {
    |n| > 0 && NameStart(n[0], punct) && forall i :: 0 < i < |n| ==> NameChar(n[i], punct)
  }

  /** The length of the longest prefix of `s` that is a name (0 when there is none). */
  function NameLength(s: string, punct: set<char>): nat {
    if |s| > 0 && NameStart(s[0], punct) then 1 + Span(s[1..], NameClass(punct)) else 0
  }

  /** The reference definition picks the longest name prefix: it is a name and cannot be extended. */
  lemma NameLengthMaximal(s: string, punct: set<char>)
    requires |s| > 0 && NameStart(s[0], punct)
    ensures var k := NameLength(s, punct);
      k <= |s| && IsName(s[..k], punct) && (k == |s| || !NameChar(s[k], punct))
  {
    var k := NameLength(s, punct);
    forall i | 0 < i < k ensures NameChar(s[..k][i], punct) {
      assert s[..k][i] == s[1..][i - 1];
    }
  }

  /** `alt((alpha1, is_a(punct)))`: the first run of a name. */
  function NameHead(s: string, punct: set<char>): (r: PResult<string>)
    ensures r.Ok? || r.Err?
    ensures r.Ok? <==> |s| > 0 && NameStart(s[0], punct)
    ensures r.Ok? ==> 0 < |r.val| <= |s| && r.val == s[..|r.val|] && r.rest == s[|r.val|..]
    ensures r.Ok? ==> forall i :: 0 <= i < |r.val| ==> NameChar(s[i], punct)
    ensures r.Err? ==> r.err == Errors.FromErrorKind(s, Errors.IsA)
  {
    Alt(Run1(s, AlphaClass, Errors.Alpha), Run1(s, Among(punct), Errors.IsA), s)
  }

  /** `alt((alphanumeric1, is_a(punct)))`: one later run of a name. */
  function NamePiece(s: string, punct: set<char>): (r: PResult<string>)
    ensures r.Ok? || r.Err?
    ensures r.Ok? <==> |s| > 0 && NameChar(s[0], punct)
    ensures r.Ok? ==> 0 < |r.val| <= |s| && r.rest == s[|r.val|..]
    ensures r.Ok? ==> forall i :: 0 <= i < |r.val| ==> NameChar(s[i], punct)
  {
    Alt(Run1(s, AlphanumericClass, Errors.AlphaNumeric), Run1(s, Among(punct), Errors.IsA), s)
  }

  /** `many0(NamePiece)`: the runs after the first; consumes every name character. */
  function NameRest(s: string, punct: set<char>): (r: PResult<seq<string>>)
    ensures r.Ok?
    ensures r.rest == s[Span(s, NameClass(punct))..]
    decreases |s|
  {
    var piece := NamePiece(s, punct);
    if piece.Ok? then
      var more := NameRest(piece.rest, punct);
      SpanSplit(s, |piece.val|, NameClass(punct));
      Ok(more.rest, [piece.val] + more.val)
    else
      Ok(s, [])
  }

  /** `recognize(tuple((head, rest)))` with the punctuation of metric or label names. */
  function RecognizeName(s: string, punct: set<char>): (r: PResult<string>)
    ensures r.Ok? || r.Err?
    ensures r.Ok? <==> |s| > 0 && NameStart(s[0], punct)
    ensures r.Ok? ==> var k := NameLength(s, punct); r.val == s[..k] && r.rest == s[k..]
    ensures r.Err? ==> r.err == Errors.FromErrorKind(s, Errors.IsA)
  {
    var head := NameHead(s, punct);
    if !head.Ok? then Propagate(head)
    else
      var tail := NameRest(head.rest, punct);
      RestAfterName(s, punct);
      Ok(tail.rest, s[..|s| - |tail.rest|])
  }

  /** The runs after the head stop exactly where the longest name prefix ends. */
  lemma RestAfterName(s: string, punct: set<char>)
    requires |s| > 0 && NameStart(s[0], punct)
    ensures NameRest(NameHead(s, punct).rest, punct).rest == s[NameLength(s, punct)..]
  {
    var head := NameHead(s, punct);
    var h := |head.val|;
    assert 0 < h <= |s| && head.rest == s[h..];
    HeadThenRest(s, h, punct);
    var j := Span(s[h..], NameClass(punct));
    assert NameRest(s[h..], punct).rest == s[h..][j..];
    SliceTwice(s, h, j);
  }

  lemma SliceTwice(s: string, a: nat, b: nat)
    requires a <= |s| && b <= |s| - a
    ensures s[a..][b..] == s[a + b..]
  {
  }

  lemma HeadThenRest(s: string, h: nat, punct: set<char>)
    requires 0 < h <= |s| && NameStart(s[0], punct)
    requires forall i :: 0 <= i < h ==> NameChar(s[i], punct)
    ensures NameLength(s, punct) == h + Span(s[h..], NameClass(punct))
  {
    var t := s[1..];
    assert forall i :: 0 <= i < h - 1 ==> t[i] == s[i + 1];
    SpanSplit(t, h - 1, NameClass(punct));
    assert t[h - 1..] == s[h..];
  }

  /** What the recognizer returns is a name, and the name cannot be extended by the rest. */
  lemma RecognizeNameIsName(s: string, punct: set<char>)
    ensures var r := RecognizeName(s, punct);
      r.Ok? ==> IsName(r.val, punct) && (r.rest == [] || !NameChar(r.rest[0], punct))
  {
    if |s| > 0 && NameStart(s[0], punct) {
      NameLengthMaximal(s, punct);
    }
  }

  /** `parse_metric_name` (the name recognizer with `_` and `:` as punctuation). */
  function ParseMetricName(s: string): (r: PResult<string>)
    ensures r == RecognizeName(s, MetricPunct)
  {
    RecognizeName(s, MetricPunct)
  }

  /** `parse_label_name` (the name recognizer with `_` as the only punctuation). */
  function ParseLabelName(s: string): (r: PResult<string>)
    ensures r == RecognizeName(s, LabelPunct)
  {
    RecognizeName(s, LabelPunct)
  }

  /**
   * What the name recognizer promises for either alphabet: it succeeds iff the input starts with
   * a letter or a punctuation character of the alphabet, and then splits the input into a name
   * and a rest that cannot continue it.
   */
  lemma NameSplit(s: string, punct: set<char>)
    ensures var r := RecognizeName(s, punct);
      (r.Ok? <==> |s| > 0 && NameStart(s[0], punct)) &&
      (r.Ok? ==> IsName(r.val, punct) && r.val + r.rest == s && (r.rest == [] || !NameChar(r.rest[0], punct)))
  {
    NameConcat(s, punct);
    RecognizeNameIsName(s, punct);
  }

  lemma NameConcat(s: string, punct: set<char>)
    ensures var r := RecognizeName(s, punct); r.Ok? ==> r.val + r.rest == s
  {
    var r := RecognizeName(s, punct);
    if r.Ok? {
      SplitAt(r.val, r.rest, s, NameLength(s, punct));
    }
  }

  lemma SplitAt(a: string, b: string, s: string, k: nat)
    requires k <= |s| && a == s[..k] && b == s[k..]
    ensures a + b == s
  {
  }

  /** `parse_metric_name` matches `[a-zA-Z_:][a-zA-Z0-9_:]*` and splits off the longest such prefix. */
  lemma MetricNameSplit(s: string)
    ensures var r := ParseMetricName(s);
      (r.Ok? <==> |s| > 0 && NameStart(s[0], MetricPunct)) &&
      (r.Ok? ==> IsName(r.val, MetricPunct) && r.val + r.rest == s && (r.rest == [] || !NameChar(r.rest[0], MetricPunct)))
  {
    NameSplit(s, MetricPunct);
  }

  /** `parse_label_name` matches `[a-zA-Z_][a-zA-Z0-9_]*` and splits off the longest such prefix. */
  lemma LabelNameSplit(s: string)
    ensures var r := ParseLabelName(s);
      (r.Ok? <==> |s| > 0 && NameStart(s[0], LabelPunct)) &&
      (r.Ok? ==> IsName(r.val, LabelPunct) && r.val + r.rest == s && (r.rest == [] || !NameChar(r.rest[0], LabelPunct)))
  {
    NameSplit(s, LabelPunct);
  }

  /** A name followed by a character that cannot continue it is recognized exactly. */
  lemma RecognizeNameRoundTrip(n: string, u: string, punct: set<char>)
    requires IsName(n, punct)
    requires u == [] || !NameChar(u[0], punct)
    ensures RecognizeName(n + u, punct) == Ok(u, n)
  {
    var s := n + u;
    NameLengthOf(n, u, punct);
    assert s[..|n|] == n && s[|n|..] == u;
  }

  /** The longest name prefix of a name followed by a non-name character is that name. */
  lemma NameLengthOf(n: string, u: string, punct: set<char>)
    requires IsName(n, punct)
    requires u == [] || !NameChar(u[0], punct)
    ensures NameLength(n + u, punct) == |n|
  {
    var t := (n + u)[1..];
    assert t == n[1..] + u;
    forall i | 0 <= i < |n| - 1
      ensures InClass(t[i], NameClass(punct))
    {
      assert t[i] == n[i + 1];
    }
    SpanSplit(t, |n| - 1, NameClass(punct));
    assert t[|n| - 1..] == u;
  }
}
