/**
 * The parser-combinator vocabulary the grammar is written in: a parse result over a remaining
 * input, whitespace skipping, literal and case-insensitive tags, ordered choice, optional
 * parsers, and character-class runs. Parsers are functions from the input to a `PResult`;
 * a combinator is a function on the results of the parsers it combines.
 */
module Combinators {
  import opened Wrappers
  import opened Errors

  /**
   * The outcome of a parser: success with the remaining input and a value; a recoverable error
   * (ordered choice tries its next alternative, an optional parser yields nothing); a fatal
   * failure that every combinator passes on; or a panic of the hosting program.
   */
  datatype PResult<+T> = Ok(rest: string, val: T) | Err(err: Error) | Fail(err: Error) | Panic

  /** `t` is what is left of `s` after consuming a prefix of it. */
  predicate IsSuffix(t: string, s: string) {
    |t| <= |s| && t == s[|s| - |t|..]
  }

  /** A success leaves no more input than it was given. */
  predicate Within<T>(r: PResult<T>, s: string) {
    r.Ok? ==> |r.rest| <= |s|
  }

  /** A success leaves less input than it was given. */
  predicate Consumes<T>(r: PResult<T>, s: string) {
    r.Ok? ==> |r.rest| < |s|
  }

  /** The `?` operator: a non-success is passed on unchanged, at another value type. */
  function Propagate<T, U>(r: PResult<T>): (q: PResult<U>)
    requires !r.Ok?
    ensures !q.Ok? && q.Err? == r.Err? && q.Fail? == r.Fail?
    ensures !r.Panic? ==> q.err == r.err
  {
    match r
    case Err(e) => Err(e)
    case Fail(e) => Fail(e)
    case Panic => Panic
  }

  // ----- Characters -----

  /** The characters `multispace0` skips. */
  predicate IsSpace(c: char) {
    c == ' ' || c == '\t' || c == '\r' || c == '\n'
  }

  predicate IsAlpha(c: char) {
    ('a' <= c <= 'z') || ('A' <= c <= 'Z')
  }

  predicate IsDigit(c: char) {
    '0' <= c <= '9'
  }

  predicate IsAlphanumeric(c: char) {
    IsAlpha(c) || IsDigit(c)
  }

  /** ASCII lower-casing; the only case folding the keywords of the grammar depend on. */
  function Lower(c: char): (d: char)
    ensures IsAlpha(c) <==> IsAlpha(d)
    ensures !('A' <= c <= 'Z') ==> d == c
    ensures 'A' <= c <= 'Z' ==> 'a' <= d <= 'z' && d as int == c as int + 32
  {
    if 'A' <= c <= 'Z' then (c as int + 32) as char else c
  }

  function LowerString(s: string): (t: string)
    ensures |t| == |s| && forall i :: 0 <= i < |s| ==> t[i] == Lower(s[i])
  {
    if s == [] then [] else [Lower(s[0])] + LowerString(s[1..])
  }

  lemma LowerStringNoUpper(s: string)
    requires forall i :: 0 <= i < |s| ==> !('A' <= s[i] <= 'Z')
    ensures LowerString(s) == s
  {
  }

  /** `s` starts with `t`, ignoring ASCII case. */
  predicate CiPrefix(t: string, s: string) {
    |t| <= |s| && forall i :: 0 <= i < |t| ==> Lower(s[i]) == Lower(t[i])
  }

  lemma CiPrefixSelf(t: string, x: string)
    ensures CiPrefix(t, t + x)
  {
    assert forall i :: 0 <= i < |t| ==> (t + x)[i] == t[i];
  }

  /** Character classes recognized by runs. */
  datatype CharClass =
    | AlphaClass
    | AlphanumericClass
    | DigitClass
    | Among(chars: set<char>)
    | NameClass(punct: set<char>)
    | LowByteAlphanumericClass

  predicate InClass(c: char, cls: CharClass) {
    match cls
    case AlphaClass => IsAlpha(c)
    case AlphanumericClass => IsAlphanumeric(c)
    case DigitClass => IsDigit(c)
    case Among(cs) => c in cs
    case NameClass(cs) => IsAlphanumeric(c) || c in cs
    case LowByteAlphanumericClass => IsAlphanumeric(LowByte(c))
  }

  /** The character whose code is the low byte of `c`'s code: Rust's `c as u8`. */
  function LowByte(c: char): (b: char)
    ensures b as int == c as int % 256
  {
    (c as int % 256) as char
  }

  /** The length of the longest prefix of `s` in class `cls`. */
  function Span(s: string, cls: CharClass): (n: nat)
    ensures n <= |s|
    ensures forall i :: 0 <= i < n ==> InClass(s[i], cls)
    ensures n == |s| || !InClass(s[n], cls)
  {
    if s == [] || !InClass(s[0], cls) then 0 else 1 + Span(s[1..], cls)
  }

  /** A span can be measured in two steps: first `k` characters known to be in the class. */
  lemma {:induction false} SpanSplit(s: string, k: nat, cls: CharClass)
    requires k <= |s| && forall i :: 0 <= i < k ==> InClass(s[i], cls)
    ensures Span(s, cls) == k + Span(s[k..], cls)
    decreases k
  {
    if k > 0 {
      SpanSplit(s[1..], k - 1, cls);
      assert s[1..][k - 1..] == s[k..];
    }
  }

  /** `alpha1`, `alphanumeric1`, `digit1`, `is_a(…)`: the longest non-empty run of a class. */
  function Run1(s: string, cls: CharClass, kind: ErrorKind): (r: PResult<string>)
    ensures r.Ok? || r.Err?
    ensures r.Ok? <==> |s| > 0 && InClass(s[0], cls)
    ensures r.Ok? ==> r.val == s[..Span(s, cls)] && r.rest == s[Span(s, cls)..]
    ensures r.Err? ==> r.err == FromErrorKind(s, kind)
  {
    var n := Span(s, cls);
    if n == 0 then Err(FromErrorKind(s, kind)) else Ok(s[n..], s[..n])
  }

  // ----- Whitespace -----

  /** `multispace0`: drops the leading whitespace. */
  function SkipWs(s: string): (t: string)
    ensures |t| <= |s|
    ensures t == [] || !IsSpace(t[0])
  {
    if s != [] && IsSpace(s[0]) then SkipWs(s[1..]) else s
  }

  /** What `SkipWs` drops is a prefix made of whitespace only. */
  lemma {:induction false} SkipWsDropsSpaces(s: string)
    ensures IsSuffix(SkipWs(s), s)
    ensures forall i :: 0 <= i < |s| - |SkipWs(s)| ==> IsSpace(s[i])
    decreases |s|
  {
    if s != [] && IsSpace(s[0]) {
      SkipWsDropsSpaces(s[1..]);
    }
  }

  lemma SkipWsNoSpace(s: string)
    requires s == [] || !IsSpace(s[0])
    ensures SkipWs(s) == s
  {
  }

  lemma SkipWsSpace(z: string)
    ensures SkipWs(" " + z) == SkipWs(z)
  {
    assert (" " + z)[1..] == z;
  }

  lemma SkipWsIdempotent(s: string)
    ensures SkipWs(SkipWs(s)) == SkipWs(s)
  {
  }

  /**
   * `ws(f)` surrounds `f` with `multispace0`: a caller writes `Ws(f(SkipWs(s)))`, and this
   * function drops the whitespace after a success.
   */
  function Ws<T>(r: PResult<T>): (q: PResult<T>)
    ensures q.Ok? <==> r.Ok?
    ensures r.Ok? ==> q.val == r.val && q.rest == SkipWs(r.rest)
    ensures !r.Ok? ==> q == r
  {
    if r.Ok? then Ok(SkipWs(r.rest), r.val) else r
  }

  // ----- Tags -----

  /** `tag(t)`: the exact text `t`. */
  function Tag(t: string, s: string): (r: PResult<string>)
    ensures r.Ok? || r.Err?
    ensures r.Ok? <==> t <= s
    ensures r.Ok? ==> r.val == t && r.rest == s[|t|..]
    ensures r.Err? ==> r.err == FromErrorKind(s, ErrorKind.Tag)
  {
    if t <= s then Ok(s[|t|..], s[..|t|]) else Err(FromErrorKind(s, ErrorKind.Tag))
  }

  /** `tag_no_case(t)`: `t` in any case; the value is the text as it appears in the input. */
  function TagNoCase(t: string, s: string): (r: PResult<string>)
    ensures r.Ok? || r.Err?
    ensures r.Ok? <==> CiPrefix(t, s)
    ensures r.Ok? ==> r.val + r.rest == s && |r.val| == |t| && LowerString(r.val) == LowerString(t)
    ensures r.Ok? ==> (r.val == t <==> t <= s)
    ensures r.Err? ==> r.err == FromErrorKind(s, ErrorKind.Tag)
  {
    if CiPrefix(t, s) then Ok(s[|t|..], s[..|t|]) else Err(FromErrorKind(s, ErrorKind.Tag))
  }

  /** `alt((tag(t0), tag(t1), …))`: the first of the texts the input starts with. */
  function FirstTag(ts: seq<string>, s: string): (r: PResult<string>)
    requires |ts| > 0
    ensures r.Ok? || r.Err?
    ensures r.Ok? ==> r.val in ts && r.val <= s && r.rest == s[|r.val|..]
    ensures r.Err? ==> forall i :: 0 <= i < |ts| ==> !(ts[i] <= s)
    ensures r.Err? ==> r.err == FromErrorKind(s, ErrorKind.Tag)
    ensures ts[0] <= s ==> r.Ok? && r.val == ts[0]
    decreases |ts|
  {
    if |ts| == 1 then Tag(ts[0], s) else Alt(Tag(ts[0], s), FirstTag(ts[1..], s), s)
  }

  /** An alternative the input does not start with is passed over. */
  lemma FirstTagSkip(ts: seq<string>, s: string)
    requires |ts| > 1 && !(ts[0] <= s)
    ensures FirstTag(ts, s) == FirstTag(ts[1..], s)
  {
  }

  /** The first text the input starts with is the one chosen. */
  lemma {:induction false} FirstTagAt(ts: seq<string>, k: nat, s: string)
    requires k < |ts| && ts[k] <= s
    requires forall i :: 0 <= i < k ==> !(ts[i] <= s)
    ensures FirstTag(ts, s) == Ok(s[|ts[k]|..], ts[k])
    decreases k
  {
    if k > 0 {
      FirstTagSkip(ts, s);
      FirstTagAt(ts[1..], k - 1, s);
    }
  }

  // ----- Choice and options -----

  /**
   * `alt((a, b))`: `a` unless it fails recoverably, then `b`; when both fail recoverably the
   * error of the last alternative is reported.
   */
  function Alt<T>(a: PResult<T>, b: PResult<T>, s: string): (r: PResult<T>)
    ensures !a.Err? ==> r == a
    ensures a.Err? && !b.Err? ==> r == b
    ensures a.Err? && b.Err? ==> r == Err(b.err)
  {
    if !a.Err? then a else if !b.Err? then b else Err(Append(s, ErrorKind.Alt, b.err))
  }

  /** `opt(f)`: a recoverable error becomes an empty success at the same input. */
  function Opt<T>(r: PResult<T>, s: string): (q: PResult<Option<T>>)
    ensures !q.Err?
    ensures q.Ok? <==> r.Ok? || r.Err?
    ensures r.Ok? ==> q == Ok(r.rest, Some(r.val))
    ensures r.Err? ==> q == Ok(s, None)
    ensures r.Fail? ==> q == Fail(r.err)
  {
    match r
    case Ok(rest, v) => Ok(rest, Some(v))
    case Err(_) => Ok(s, None)
    case Fail(e) => Fail(e)
    case Panic => Panic
  }

  /** `context(ctx, f)`: errors pass through `add_context`. */
  function Context<T>(r: PResult<T>, s: string, ctx: string): (q: PResult<T>)
    ensures q == r
  {
    match r
    case Err(e) => Err(AddContext(s, ctx, e))
    case Fail(e) => Fail(AddContext(s, ctx, e))
    case _ => r
  }
}
