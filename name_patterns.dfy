/**
 * The three regular expressions of the company-name extractor
 * (biera/lib/chat-utils.ts, repeated in page.tsx), written out as matchers.
 *
 *   CompanyIs: (?:my\s+)?(?:company|brand)\s+(?:name\s+)?(?:is|=|:)\s*["']?(NAME)["']?
 *   MyWordIs:  my\s+\w{3,14}\s+(?:name\s+)?(?:is|=|:)\s*["']?(NAME)["']?
 *   WeAre:     (?:we\s+are|our\s+(?:company|brand)\s+is)\s*["']?(NAME)["']?
 *   NAME:      [A-Za-z0-9][A-Za-z0-9&.\- ]{0,60}
 *
 * all with the `i` flag. Under `i` (without `u`) ECMAScript compares canonicalised
 * characters, and canonicalisation folds no character other than an ASCII letter
 * onto an ASCII character. Every literal and class here is ASCII and closed under
 * ASCII case, so matching the text is matching its ASCII-lower-cased form against
 * the lower-case pattern: the matchers below read that lowered text `l`, and
 * `Capture` slices the capture out of the original text.
 * `String.prototype.match` returns the leftmost match,
 * and within it the first alternative the backtracking order accepts. For these
 * patterns that choice is forced: every `\s+`, `\s*` and `\w{3,14}` is followed
 * by something it cannot consume, so these runs are maximal, and the
 * alternatives of each group start with distinct letters. A matcher at one
 * position is therefore a straight-line function, and the search is a scan for
 * the first position where it succeeds. The optional `(?:my\s+)` prefix of
 * CompanyIs can only move the start of the whole match, never capture
 * group 1, so the matcher starts at `company` / `brand`.
 */
module NamePatterns {
  import opened JsString
  import opened ChatTypes

  /** `[A-Za-z0-9&.\- ]`; under `i` without `u` no other character folds into it. */
  predicate InNameClass(c: char) {
    IsAsciiAlnum(c) || c == '&' || c == '.' || c == '-' || c == ' '
  }

  /** The literal `lit` occurs at `i`. */
  predicate LiteralAt(s: string, i: nat, lit: string) {
    i + |lit| <= |s| && s[i..i + |lit|] == lit
  }

  /** The end of the maximal run of `\w` that starts at `i`. */
  function SkipWordChars(s: string, i: nat): (j: nat)
    requires i <= |s|
    ensures i <= j <= |s|
    ensures forall k | i <= k < j :: IsWordChar(s[k])
    ensures j < |s| ==> !IsWordChar(s[j])
    decreases |s| - i
  {
    if i < |s| && IsWordChar(s[i]) then SkipWordChars(s, i + 1) else i
  }

  /** The end of what the greedy `[A-Za-z0-9&.\- ]{0,max}` takes from `i`. */
  function NameRun(s: string, i: nat, max: nat): (j: nat)
    requires i <= |s|
    ensures i <= j <= |s| && j - i <= max
    ensures forall k | i <= k < j :: InNameClass(s[k])
    ensures j < |s| && j - i < max ==> !InNameClass(s[j])
    decreases max
  {
    if max > 0 && i < |s| && InNameClass(s[i]) then NameRun(s, i + 1, max - 1) else i
  }

  /** Where capture group 1 lies in the searched text: `s[start..end]`. */
  datatype Span = Span(start: nat, end: nat)

  /** What a capture of NAME always is: an ASCII letter or digit, then at most 60 name characters. */
  predicate ValidCapture(s: string, sp: Span) {
    && sp.start < sp.end <= |s|
    && sp.end - sp.start <= 61
    && IsAsciiAlnum(s[sp.start])
    && forall k | sp.start <= k < sp.end :: InNameClass(s[k])
  }

  /** `\s+` at `i`: the position after the maximal run, if the run is not empty. */
  function Spaces1(s: string, i: nat): (r: Option<nat>)
    requires i <= |s|
    ensures r.Some? ==> i < r.value <= |s|
  {
    if i < |s| && IsSpace(s[i]) then Some(SkipSpaces(s, i)) else None
  }

  /** `\s*["']?(NAME)["']?` from `m`. The closing `["']?` always matches and changes nothing. */
  function CaptureFrom(s: string, m: nat): (r: Option<Span>)
    requires m <= |s|
    ensures r.Some? ==> ValidCapture(s, r.value) && m <= r.value.start
  {
    var n := SkipSpaces(s, m);
    var p := if n < |s| && (s[n] == '"' || s[n] == '\'') then n + 1 else n;
    if p < |s| && IsAsciiAlnum(s[p]) then Some(Span(p, NameRun(s, p + 1, 60))) else None
  }

  /** `(?:is|=|:)` at `k`: the position after it. */
  function Separator(s: string, k: nat): (r: Option<nat>)
    requires k <= |s|
    ensures r.Some? ==> k < r.value <= |s|
  {
    if LiteralAt(s, k, "is") then Some(k + 2)
    else if k < |s| && (s[k] == '=' || s[k] == ':') then Some(k + 1)
    else None
  }

  /**
   * `(?:name\s+)?(?:is|=|:)\s*["']?(NAME)["']?` from `j`. When `name\s+` is
   * present and the rest fails, skipping it cannot help: the separator would have
   * to start with the `n` of `name`.
   */
  function NamedCapture(s: string, j: nat): (r: Option<Span>)
    requires j <= |s|
    ensures r.Some? ==> ValidCapture(s, r.value)
  {
    var k := if LiteralAt(s, j, "name") && Spaces1(s, j + 4).Some? then Spaces1(s, j + 4).value else j;
    match Separator(s, k)
    case None => None
    case Some(m) => CaptureFrom(s, m)
  }

  /** `(?:company|brand)` at `i`: the position after it. */
  function CompanyOrBrand(s: string, i: nat): (r: Option<nat>)
    requires i <= |s|
    ensures r.Some? ==> i < r.value <= |s|
  {
    if LiteralAt(s, i, "company") then Some(i + 7)
    else if LiteralAt(s, i, "brand") then Some(i + 5)
    else None
  }

  datatype Pattern = CompanyIs | MyWordIs | WeAre

  /** `(?:company|brand)\s+(?:name\s+)?(?:is|=|:)\s*["']?(NAME)["']?` at `q`. */
  function CompanyIsAt(s: string, q: nat): (r: Option<Span>)
    requires q <= |s|
    ensures r.Some? ==> ValidCapture(s, r.value)
  {
    match CompanyOrBrand(s, q)
    case None => None
    case Some(i) =>
      match Spaces1(s, i)
      case None => None
      case Some(j) => NamedCapture(s, j)
  }

  /** `my\s+\w{3,14}\s+(?:name\s+)?(?:is|=|:)\s*["']?(NAME)["']?` at `q`; the `\w` run must be maximal. */
  function MyWordIsAt(s: string, q: nat): (r: Option<Span>)
    requires q <= |s|
    ensures r.Some? ==> ValidCapture(s, r.value)
  {
    if !LiteralAt(s, q, "my") then None
    else match Spaces1(s, q + 2)
    case None => None
    case Some(w) =>
      var e := SkipWordChars(s, w);
      if !(3 <= e - w <= 14) then None
      else match Spaces1(s, e)
      case None => None
      case Some(j) => NamedCapture(s, j)
  }

  /** `our\s+(?:company|brand)\s+is` at `q`: the position after it. */
  function OurCompanyIs(s: string, q: nat): (r: Option<nat>)
    requires q <= |s|
    ensures r.Some? ==> q < r.value <= |s|
  {
    if !LiteralAt(s, q, "our") then None
    else match Spaces1(s, q + 3)
    case None => None
    case Some(b) =>
      match CompanyOrBrand(s, b)
      case None => None
      case Some(c) =>
        match Spaces1(s, c)
        case None => None
        case Some(d) => if LiteralAt(s, d, "is") then Some(d + 2) else None
  }

  /** `we\s+are` at `q`: the position after it. */
  function WeAreLiteral(s: string, q: nat): (r: Option<nat>)
    requires q <= |s|
    ensures r.Some? ==> q < r.value <= |s|
  {
    if !LiteralAt(s, q, "we") then None
    else match Spaces1(s, q + 2)
    case None => None
    case Some(a) => if LiteralAt(s, a, "are") then Some(a + 3) else None
  }

  /**
   * `(?:we\s+are|our\s+(?:company|brand)\s+is)\s*["']?(NAME)["']?` at `q`. The two
   * alternatives start with different letters, so at most one can apply.
   */
  function WeAreAt(s: string, q: nat): (r: Option<Span>)
    requires q <= |s|
    ensures r.Some? ==> ValidCapture(s, r.value)
  {
    match WeAreLiteral(s, q)
    case Some(m) => CaptureFrom(s, m)
    case None =>
      match OurCompanyIs(s, q)
      case Some(m) => CaptureFrom(s, m)
      case None => None
  }

  /** The capture of `p` when a match of `p` starts at `q`, if one does. */
  function MatchAt(p: Pattern, s: string, q: nat): (r: Option<Span>)
    requires q <= |s|
    ensures r.Some? ==> ValidCapture(s, r.value)
  {
    match p
    case CompanyIs => CompanyIsAt(s, q)
    case MyWordIs => MyWordIsAt(s, q)
    case WeAre => WeAreAt(s, q)
  }

  /** Whether and what `p` captures at each start position of `s`, from 0 to `|s|`. */
  function Matches(p: Pattern, s: string): (ms: seq<Option<Span>>)
    ensures |ms| == |s| + 1
    ensures forall i | 0 <= i <= |s| :: ms[i] == MatchAt(p, s, i)
  {
    seq(|s| + 1, i requires 0 <= i <= |s| => MatchAt(p, s, i))
  }

  /** The leftmost position at or after `q` where `ms` holds a match: the scan of `String.prototype.match`. */
  function FirstHit(ms: seq<Option<Span>>, q: nat): (r: Option<nat>)
    requires q <= |ms|
    ensures r.Some? ==> q <= r.value < |ms| && ms[r.value].Some?
    ensures r.Some? ==> forall i | q <= i < r.value :: ms[i].None?
    ensures r.None? ==> forall i | q <= i < |ms| :: ms[i].None?
    decreases |ms| - q
  {
    if q == |ms| then None
    else if ms[q].Some? then Some(q)
    else FirstHit(ms, q + 1)
  }

  /** The classes read by the patterns do not change when a character is ASCII-lower-cased. */
  lemma LowerKeepsClasses(c: char)
    ensures IsAsciiAlnum(ToLowerAscii(c)) == IsAsciiAlnum(c)
    ensures InNameClass(ToLowerAscii(c)) == InNameClass(c)
    ensures IsSpace(ToLowerAscii(c)) == IsSpace(c)
    ensures IsWordChar(ToLowerAscii(c)) == IsWordChar(c)
  {
  }

  /** The span where the leftmost match of `p` in the lowered text `l` captures, if there is a match. */
  function LeftmostSpan(p: Pattern, l: string): (r: Option<Span>)
    ensures r.Some? ==> ValidCapture(l, r.value)
    ensures r.None? <==> forall i | 0 <= i <= |l| :: MatchAt(p, l, i).None?
    ensures r.Some? ==> exists q | 0 <= q <= |l| :: r == MatchAt(p, l, q) && forall i | 0 <= i < q :: MatchAt(p, l, i).None?
  {
    var ms := Matches(p, l);
    match FirstHit(ms, 0)
    case None => None
    case Some(q) => ms[q]
  }

  /** A capture found in the lowered text is a capture of the original text too. */
  lemma LoweredCapture(s: string, sp: Span)
    requires ValidCapture(LowerAscii(s), sp)
    ensures ValidCapture(s, sp)
  {
    var l := LowerAscii(s);
    LowerKeepsClasses(s[sp.start]);
    forall k | sp.start <= k < sp.end ensures InNameClass(s[k]) {
      assert l[k] == ToLowerAscii(s[k]);
      LowerKeepsClasses(s[k]);
    }
  }

  lemma LowerSlice(s: string, i: nat, j: nat)
    requires i <= j <= |s|
    ensures LowerAscii(s[i..j]) == LowerAscii(s)[i..j]
  {
    var a, b := LowerAscii(s[i..j]), LowerAscii(s)[i..j];
    assert forall k | 0 <= k < j - i :: a[k] == ToLowerAscii(s[i + k]) == b[k];
  }

  /** `s.match(p)?.[1]`: capture group 1 of the leftmost match, in the original case. */
  function Capture(p: Pattern, s: string): (r: Option<string>)
    ensures r.Some? <==> LeftmostSpan(p, LowerAscii(s)).Some?
    ensures r.Some? ==> 1 <= |r.value| <= 61 && IsAsciiAlnum(r.value[0])
    ensures r.Some? ==> forall k | 0 <= k < |r.value| :: InNameClass(r.value[k])
    ensures r.Some? ==> var sp := LeftmostSpan(p, LowerAscii(s)).value; sp.end <= |s| && r.value == s[sp.start..sp.end]
  {
    match LeftmostSpan(p, LowerAscii(s))
    case None => None
    case Some(sp) =>
      CaptureShape(s, sp);
      Some(s[sp.start..sp.end])
  }

  /** The text under a capture span of the lowered text starts with a letter or digit and is made of name characters. */
  lemma CaptureShape(s: string, sp: Span)
    requires ValidCapture(LowerAscii(s), sp)
    ensures sp.end <= |s|
    ensures var c := s[sp.start..sp.end];
      && 1 <= |c| <= 61 && IsAsciiAlnum(c[0])
      && forall k | 0 <= k < |c| :: InNameClass(c[k])
  {
    LoweredCapture(s, sp);
    var c := s[sp.start..sp.end];
    assert forall k | 0 <= k < |c| :: c[k] == s[sp.start + k];
  }

  /**
   * The patterns match case-insensitively: two texts that differ only in ASCII
   * case both match or both do not; their captures are taken from the same
   * span, so they differ only in ASCII case.
   */
  lemma CaptureIgnoresCase(p: Pattern, s: string, t: string)
    requires LowerAscii(s) == LowerAscii(t)
    ensures Capture(p, s).Some? == Capture(p, t).Some?
    ensures Capture(p, s).Some? ==>
              var sp := LeftmostSpan(p, LowerAscii(s)).value;
              Capture(p, s).value == s[sp.start..sp.end] && Capture(p, t).value == t[sp.start..sp.end]
    ensures Capture(p, s).Some? ==> LowerAscii(Capture(p, s).value) == LowerAscii(Capture(p, t).value)
  {
    assert |s| == |t|;
    if Capture(p, s).Some? {
      var sp := LeftmostSpan(p, LowerAscii(s)).value;
      LowerSlice(s, sp.start, sp.end);
      LowerSlice(t, sp.start, sp.end);
    }
  }
}
