/**
 * The chat helpers (biera/lib/chat-utils.ts; page.tsx carries the same three
 * functions): the avatar initial, the soft company-name extractor with its
 * string post-processing, and the mapping of the UI transcript to API messages.
 */
module ChatUtils {
  import opened JsString
  import opened ChatTypes
  import opened NamePatterns

  // ---- firstLetter ----

  /** The leftmost index at or after `i` holding `[A-Za-z0-9]`, as `s.match(/[A-Za-z0-9]/)` finds it. */
  function FirstAlnumFrom(s: string, i: nat): (r: Option<nat>)
    requires i <= |s|
    ensures r.Some? ==> i <= r.value < |s| && IsAsciiAlnum(s[r.value])
    ensures r.Some? ==> forall k | i <= k < r.value :: !IsAsciiAlnum(s[k])
    ensures r.None? ==> forall k | i <= k < |s| :: !IsAsciiAlnum(s[k])
    decreases |s| - i
  {
    if i == |s| then None
    else if IsAsciiAlnum(s[i]) then Some(i)
    else FirstAlnumFrom(s, i + 1)
  }

  /** Leading white space holds no letter or digit: the scan from before it ends where the scan from after it does. */
  lemma {:induction false} FirstAlnumSkip(s: string, k: nat, i: nat)
    requires k <= i <= |s| && AllSpace(s[..i])
    ensures FirstAlnumFrom(s, k) == FirstAlnumFrom(s, i)
    decreases i - k
  {
    if k < i {
      assert s[..i][k] == s[k];
      FirstAlnumSkip(s, k + 1, i);
    }
  }

  /** Cutting off trailing white space does not change the scan, only shifts it by the slice's start. */
  lemma {:induction false} FirstAlnumShift(s: string, i: nat, j: nat, k: nat)
    requires i <= k <= j <= |s| && AllSpace(s[j..])
    ensures FirstAlnumFrom(s[i..j], k - i).Some? == FirstAlnumFrom(s, k).Some?
    ensures FirstAlnumFrom(s[i..j], k - i).Some? ==> FirstAlnumFrom(s, k).value == i + FirstAlnumFrom(s[i..j], k - i).value
    decreases j - k
  {
    if k == j {
      forall r | j <= r < |s| ensures !IsAsciiAlnum(s[r]) {
        assert s[j..][r - j] == s[r];
      }
    } else {
      assert s[i..j][k - i] == s[k];
      if !IsAsciiAlnum(s[k]) {
        FirstAlnumShift(s, i, j, k + 1);
      }
    }
  }

  /** Trimming cannot move the first ASCII letter or digit: white space is neither. */
  lemma FirstAlnumOfSlice(s: string, i: nat, j: nat)
    requires i <= j <= |s| && AllSpace(s[..i]) && AllSpace(s[j..])
    ensures FirstAlnumFrom(s[i..j], 0).Some? == FirstAlnumFrom(s, 0).Some?
    ensures FirstAlnumFrom(s[i..j], 0).Some? ==> FirstAlnumFrom(s, 0).value == i + FirstAlnumFrom(s[i..j], 0).value
  {
    FirstAlnumSkip(s, 0, i);
    FirstAlnumShift(s, i, j, i);
  }

  lemma FirstAlnumOfTrim(name: string)
    ensures FirstAlnumFrom(Trim(name), 0).Some? == FirstAlnumFrom(name, 0).Some?
    ensures FirstAlnumFrom(name, 0).Some? ==>
              Trim(name)[FirstAlnumFrom(Trim(name), 0).value] == name[FirstAlnumFrom(name, 0).value]
  {
    var a := TrimStart(name);
    var i := |name| - |a|;
    var r := TrimEnd(a);
    var j := i + |r|;
    assert r == name[i..j];
    assert name[j..] == a[|r|..];
    FirstAlnumOfSlice(name, i, j);
  }

  /**
   * `firstLetter(name)`: "U" when the name holds no ASCII letter or digit,
   * otherwise the upper-cased first one.
   */
  function FirstLetter(name: string): (r: string)
    ensures |r| == 1
    ensures FirstAlnumFrom(name, 0).None? ==> r == "U"
    ensures FirstAlnumFrom(name, 0).Some? ==> r == [ToUpperAscii(name[FirstAlnumFrom(name, 0).value])]
  {
    var clean := Trim(name);
    FirstAlnumOfTrim(name);
    if clean == [] then "U"
    else match FirstAlnumFrom(clean, 0)
      case None => "U"
      case Some(k) => [ToUpperAscii(clean[k])]
  }

  /** The initial is always an upper-case ASCII letter or a digit. */
  lemma FirstLetterIsInitial(name: string)
    ensures IsAsciiAlnum(FirstLetter(name)[0]) && !('a' <= FirstLetter(name)[0] <= 'z')
  {
    match FirstAlnumFrom(name, 0)
    case None =>
    case Some(k) =>
      var c := name[k];
      assert FirstLetter(name)[0] == ToUpperAscii(c);
  }

  // ---- split(...)[0]: cutting at the first delimiter ----

  /** The two delimiter sets: rules 1 and 2 also cut at a "we are" / "it's" / "its" clause. */
  datatype Delims = PunctOrClause | PunctOnly

  /** `[,.\n\r]` at `q` */
  predicate PunctAt(s: string, q: nat) {
    q < |s| && (s[q] == ',' || s[q] == '.' || s[q] == '\n' || s[q] == '\r')
  }

  /** `\s+we\s+are\s+` at `q` in the lowered text */
  predicate WeAreClauseAt(l: string, q: nat)
    requires q <= |l|
  {
    match Spaces1(l, q)
    case None => false
    case Some(a) =>
      && LiteralAt(l, a, "we")
      && match Spaces1(l, a + 2)
         case None => false
         case Some(b) => LiteralAt(l, b, "are") && Spaces1(l, b + 3).Some?
  }

  /** `\s+it'?s\s+` or `\s+its\s+` at `q` in the lowered text (the second is contained in the first). */
  predicate ItsClauseAt(l: string, q: nat)
    requires q <= |l|
  {
    match Spaces1(l, q)
    case None => false
    case Some(a) =>
      && LiteralAt(l, a, "it")
      && ((LiteralAt(l, a + 2, "'s") && Spaces1(l, a + 4).Some?)
          || (LiteralAt(l, a + 2, "s") && Spaces1(l, a + 3).Some?))
  }

  /** A delimiter of the set `d` starts at `q`; `l` is the text as the split pattern reads it. */
  predicate DelimAt(d: Delims, l: string, q: nat)
    requires q <= |l|
  {
    || PunctAt(l, q)
    || (d == PunctOrClause && (WeAreClauseAt(l, q) || ItsClauseAt(l, q)))
  }

  /** How the split pattern reads `c`: with the `i` flag for rules 1 and 2, as is for rule 3. */
  function DelimText(d: Delims, c: string): (l: string)
    ensures |l| == |c|
  {
    match d
    case PunctOrClause => LowerAscii(c)
    case PunctOnly => c
  }

  /** The first position at or after `q` where a delimiter starts, or the end of the text. */
  function FirstDelimFrom(d: Delims, l: string, q: nat): (r: nat)
    requires q <= |l|
    ensures q <= r <= |l|
    ensures forall k | q <= k < r :: !DelimAt(d, l, k)
    ensures r < |l| ==> DelimAt(d, l, r)
    decreases |l| - q
  {
    if q == |l| || DelimAt(d, l, q) then q else FirstDelimFrom(d, l, q + 1)
  }

  /** `c.split(delims)[0]`: the text before the first delimiter. */
  function Cut(d: Delims, c: string): (r: string)
    ensures |r| <= |c| && r == c[..|r|]
    ensures forall k | 0 <= k < |r| :: !DelimAt(d, DelimText(d, c), k)
    ensures |r| < |c| ==> DelimAt(d, DelimText(d, c), |r|)
  {
    c[..FirstDelimFrom(d, DelimText(d, c), 0)]
  }

  // ---- replace(/\s{2,}/g, " ") ----

  /** No two adjacent white-space characters. */
  predicate NoDoubleSpace(s: string) {
    forall i | 0 <= i < |s| - 1 :: !(IsSpace(s[i]) && IsSpace(s[i + 1]))
  }

  /** Every maximal run of two or more white-space characters replaced by one space; single ones stay. */
  function CollapseSpaces(s: string): (r: string)
    ensures |r| <= |s|
    ensures (r == []) == (s == [])
    ensures s != [] ==> IsSpace(r[0]) == IsSpace(s[0]) && (!IsSpace(s[0]) ==> r[0] == s[0])
    decreases |s|
  {
    if s == [] then []
    else if IsSpace(s[0]) && SkipSpaces(s, 0) >= 2 then " " + CollapseSpaces(s[SkipSpaces(s, 0)..])
    else [s[0]] + CollapseSpaces(s[1..])
  }

  /** Collapsing keeps whether the text ends in white space. */
  lemma {:induction false} CollapseKeepsLast(s: string)
    requires s != []
    ensures IsSpace(CollapseSpaces(s)[|CollapseSpaces(s)| - 1]) == IsSpace(s[|s| - 1])
    decreases |s|
  {
    var j := SkipSpaces(s, 0);
    var run := IsSpace(s[0]) && j >= 2;
    var head := if run then " " else [s[0]];
    var rest := if run then s[j..] else s[1..];
    assert CollapseSpaces(s) == head + CollapseSpaces(rest);
    assert IsSpace(head[0]) == IsSpace(s[0]);
    if rest != [] {
      CollapseKeepsLast(rest);
      LastOfAppend(head, CollapseSpaces(rest));
      assert rest[|rest| - 1] == s[|s| - 1];
    } else {
      assert run ==> IsSpace(s[|s| - 1]);
      LastOfAppend(head, []);
    }
  }

  /** The last character of `a + b` is the last of `b`, or the last of `a` when `b` is empty. */
  lemma LastOfAppend(a: string, b: string)
    requires |a| == 1
    ensures (a + b)[|a + b| - 1] == if b == [] then a[0] else b[|b| - 1]
  {
  }

  /** Collapsing adds no character other than a space. */
  lemma {:induction false} CollapseDrawsFrom(s: string)
    ensures forall k | 0 <= k < |CollapseSpaces(s)| :: CollapseSpaces(s)[k] == ' ' || CollapseSpaces(s)[k] in s
    decreases |s|
  {
    if s != [] {
      var j := SkipSpaces(s, 0);
      var rest := if IsSpace(s[0]) && j >= 2 then s[j..] else s[1..];
      CollapseDrawsFrom(rest);
      assert forall k | 0 <= k < |rest| :: rest[k] in s;
      var r := CollapseSpaces(s);
      assert r[1..] == CollapseSpaces(rest);
      forall k | 0 <= k < |r| ensures r[k] == ' ' || r[k] in s {
        if k > 0 {
          assert r[k] == CollapseSpaces(rest)[k - 1];
        }
      }
    }
  }

  /** The non-white-space characters of `s`, in order. */
  function Visible(s: string): string {
    if s == [] then [] else (if IsSpace(s[0]) then [] else [s[0]]) + Visible(s[1..])
  }

  lemma {:induction false} VisibleSkipsSpaces(s: string, i: nat)
    requires i <= |s|
    ensures Visible(s[i..]) == Visible(s[SkipSpaces(s, i)..])
    decreases |s| - i
  {
    if i < |s| && IsSpace(s[i]) {
      assert s[i..][1..] == s[i + 1..];
      VisibleSkipsSpaces(s, i + 1);
    }
  }

  /** After collapsing, no two white-space characters are adjacent. */
  lemma {:induction false} CollapseLeavesNoDoubleSpace(s: string)
    ensures NoDoubleSpace(CollapseSpaces(s))
    decreases |s|
  {
    if s != [] {
      var j := SkipSpaces(s, 0);
      if IsSpace(s[0]) && j >= 2 {
        CollapseLeavesNoDoubleSpace(s[j..]);
      } else {
        CollapseLeavesNoDoubleSpace(s[1..]);
        if IsSpace(s[0]) && |s| > 1 {
          assert !IsSpace(s[1]);
        }
      }
    }
  }

  /** Collapsing only touches white space: the other characters stay, in order. */
  lemma {:induction false} CollapseKeepsVisible(s: string)
    ensures Visible(CollapseSpaces(s)) == Visible(s)
    decreases |s|
  {
    if s != [] {
      var j := SkipSpaces(s, 0);
      if IsSpace(s[0]) && j >= 2 {
        CollapseKeepsVisible(s[j..]);
        VisibleSkipsSpaces(s, 0);
        assert (" " + CollapseSpaces(s[j..]))[1..] == CollapseSpaces(s[j..]);
      } else {
        CollapseKeepsVisible(s[1..]);
        assert ([s[0]] + CollapseSpaces(s[1..]))[1..] == CollapseSpaces(s[1..]);
      }
    }
  }

  /** A text without double white space is left as it is; so collapsing is idempotent. */
  lemma {:induction false} CollapseWithoutDoubleSpace(s: string)
    requires NoDoubleSpace(s)
    ensures CollapseSpaces(s) == s
    decreases |s|
  {
    if s != [] {
      if IsSpace(s[0]) && |s| > 1 {
        assert !IsSpace(s[1]);
      }
      assert SkipSpaces(s, 0) <= 1;
      assert s == [s[0]] + s[1..];
      CollapseWithoutDoubleSpace(s[1..]);
    }
  }

  lemma CollapseIdempotent(s: string)
    ensures CollapseSpaces(CollapseSpaces(s)) == CollapseSpaces(s)
  {
    CollapseLeavesNoDoubleSpace(s);
    CollapseWithoutDoubleSpace(CollapseSpaces(s));
  }

  // ---- split(/\s+/).filter(Boolean) ----

  /** The end of the maximal run of non-white-space characters from `i`. */
  function SkipVisible(s: string, i: nat): (j: nat)
    requires i <= |s|
    ensures i <= j <= |s|
    ensures forall k | i <= k < j :: !IsSpace(s[k])
    ensures j < |s| ==> IsSpace(s[j])
    decreases |s| - i
  {
    if i < |s| && !IsSpace(s[i]) then SkipVisible(s, i + 1) else i
  }

  /** The white-space separated words of `s`: its maximal runs of non-white-space characters. */
  function Words(s: string): (w: seq<string>)
    ensures forall k | 0 <= k < |w| :: w[k] != [] && forall m | 0 <= m < |w[k]| :: !IsSpace(w[k][m])
    decreases |s|
  {
    var i := SkipSpaces(s, 0);
    if i == |s| then []
    else
      var j := SkipVisible(s, i);
      [s[i..j]] + Words(s[j..])
  }

  lemma {:induction false} VisibleOfSolid(s: string)
    requires forall k | 0 <= k < |s| :: !IsSpace(s[k])
    ensures Visible(s) == s
    decreases |s|
  {
    if s != [] {
      VisibleOfSolid(s[1..]);
    }
  }

  function Concat(w: seq<string>): string {
    if w == [] then [] else w[0] + Concat(w[1..])
  }

  lemma {:induction false} VisibleAppend(a: string, b: string)
    ensures Visible(a + b) == Visible(a) + Visible(b)
    decreases |a|
  {
    if a == [] {
      assert a + b == b;
    } else {
      assert (a + b)[1..] == a[1..] + b;
      VisibleAppend(a[1..], b);
    }
  }

  lemma {:induction false} AllSpaceInvisible(s: string)
    requires AllSpace(s)
    ensures Visible(s) == []
    decreases |s|
  {
    if s != [] {
      AllSpaceInvisible(s[1..]);
    }
  }

  /** The words are exactly the visible text, split up: nothing is lost or invented. */
  lemma {:induction false} WordsCoverVisible(s: string)
    ensures Concat(Words(s)) == Visible(s)
    decreases |s|
  {
    var i := SkipSpaces(s, 0);
    VisibleSkipsSpaces(s, 0);
    assert s[0..] == s;
    if i < |s| {
      var j := SkipVisible(s, i);
      ConcatWordsStep(s);
      VisibleSplit(s, i);
      WordsCoverVisible(s[j..]);
    } else {
      assert Words(s) == [];
    }
  }

  /** From a visible character on, the visible text is the run up to the next white space, then the rest's. */
  lemma VisibleSplit(s: string, i: nat)
    requires i < |s|
    ensures var j := SkipVisible(s, i); Visible(s[i..]) == s[i..j] + Visible(s[j..])
  {
    var j := SkipVisible(s, i);
    assert s[i..] == s[i..j] + s[j..];
    VisibleAppend(s[i..j], s[j..]);
    VisibleOfSolid(s[i..j]);
  }

  /** The first word, then the words of the rest. */
  lemma ConcatWordsStep(s: string)
    requires SkipSpaces(s, 0) < |s|
    ensures var i := SkipSpaces(s, 0); var j := SkipVisible(s, i);
      Concat(Words(s)) == s[i..j] + Concat(Words(s[j..]))
  {
    var i := SkipSpaces(s, 0);
    var j := SkipVisible(s, i);
    var rest := Words(s[j..]);
    assert Words(s) == [s[i..j]] + rest;
    assert ([s[i..j]] + rest)[1..] == rest;
  }

  /** A text has no words exactly when it is all white space. */
  lemma NoWordsIffAllSpace(s: string)
    ensures Words(s) == [] <==> AllSpace(s)
  {
    var i := SkipSpaces(s, 0);
    if i < |s| {
      assert !IsSpace(s[i]);
    }
  }

  /** Scanning white space from `k` in `t` is scanning it from `k - 1` in `t` without its first character. */
  lemma {:induction false} SkipSpacesShift(t: string, k: nat)
    requires 1 <= k <= |t|
    ensures SkipSpaces(t, k) == 1 + SkipSpaces(t[1..], k - 1)
    decreases |t| - k
  {
    if k < |t| {
      assert t[1..][k - 1] == t[k];
      if IsSpace(t[k]) {
        SkipSpacesShift(t, k + 1);
      }
    }
  }

  /** The same shift for the runs of non-white-space characters. */
  lemma {:induction false} SkipVisibleShift(t: string, k: nat)
    requires 1 <= k <= |t|
    ensures SkipVisible(t, k) == 1 + SkipVisible(t[1..], k - 1)
    decreases |t| - k
  {
    if k < |t| {
      assert t[1..][k - 1] == t[k];
      if !IsSpace(t[k]) {
        SkipVisibleShift(t, k + 1);
      }
    }
  }

  /** Whether `s` starts with a character that is not white space. */
  predicate SolidStart(s: string) {
    s != [] && !IsSpace(s[0])
  }

  /**
   * The words of `[c] + s`, given the words `w` of `s`: a white-space `c` adds
   * none, any other `c` starts a word of its own or joins the first one.
   */
  function Prepend(c: char, s: string, w: seq<string>): seq<string>
    requires SolidStart(s) ==> w != []
  {
    if IsSpace(c) then w
    else if !SolidStart(s) then [[c]] + w
    else [[c] + w[0]] + w[1..]
  }

  /** A white-space character in front adds no word. */
  lemma WordsSpaceCons(c: char, s: string)
    requires IsSpace(c)
    ensures Words([c] + s) == Words(s)
  {
    var t := [c] + s;
    assert t[0] == c && t[1..] == s;
    SkipSpacesShift(t, 1);
    var i' := SkipSpaces(s, 0);
    assert SkipSpaces(t, 0) == SkipSpaces(t, 1) == 1 + i';
    if i' < |s| {
      var j' := SkipVisible(s, i');
      SkipVisibleShift(t, i' + 1);
      SliceOfTail(c, s, i', j');
      assert Words(t) == [t[i' + 1..j' + 1]] + Words(t[j' + 1..]);
      assert Words(s) == [s[i'..j']] + Words(s[j'..]);
    } else {
      assert Words(t) == [] && Words(s) == [];
    }
  }

  /** Slices of `[c] + s` past its first character are slices of `s`. */
  lemma SliceOfTail(c: char, s: string, i: nat, j: nat)
    requires i <= j <= |s|
    ensures ([c] + s)[i + 1..j + 1] == s[i..j] && ([c] + s)[j + 1..] == s[j..]
  {
  }

  /** A character that is not white space in front either is a word of its own or joins the first word. */
  lemma WordsSolidCons(c: char, s: string)
    requires !IsSpace(c)
    ensures !SolidStart(s) ==> Words([c] + s) == [[c]] + Words(s)
    ensures SolidStart(s) ==> Words(s) != [] && Words([c] + s) == [[c] + Words(s)[0]] + Words(s)[1..]
  {
    var t := [c] + s;
    assert t[1..] == s;
    assert SkipSpaces(t, 0) == 0;
    SkipVisibleShift(t, 1);
    var j := SkipVisible(t, 0);
    assert j == 1 + SkipVisible(s, 0);
    if !SolidStart(s) {
      assert j == 1;
      assert t[0..1] == [c];
    } else {
      assert SkipSpaces(s, 0) == 0;
      var j' := SkipVisible(s, 0);
      assert Words(s) == [s[0..j']] + Words(s[j'..]);
      assert t[0..j] == [c] + s[0..j'];
      assert t[j..] == s[j'..];
    }
  }

  /** The words of a text with one more character in front. */
  lemma WordsCons(c: char, s: string)
    ensures SolidStart(s) ==> Words(s) != []
    ensures Words([c] + s) == Prepend(c, s, Words(s))
  {
    if SolidStart(s) {
      NoWordsIffAllSpace(s);
    }
    if IsSpace(c) {
      WordsSpaceCons(c, s);
    } else {
      WordsSolidCons(c, s);
    }
  }

  /** Prepending to the words of a text is unaffected by a tail that follows them. */
  lemma PrependAppend(c: char, a: string, r: string, u: seq<string>, v: seq<string>)
    requires SolidStart(a) == SolidStart(r)
    requires SolidStart(a) ==> u != []
    ensures Prepend(c, r, u + v) == Prepend(c, a, u) + v
  {
    if !IsSpace(c) && SolidStart(a) {
      assert (u + v)[1..] == u[1..] + v;
    }
  }

  /** A text without white space is one word. */
  lemma WordsOfSolid(w: string)
    requires w != [] && forall k | 0 <= k < |w| :: !IsSpace(w[k])
    ensures Words(w) == [w]
  {
    assert SkipSpaces(w, 0) == 0;
    assert SkipVisible(w, 0) == |w|;
    assert w[0..|w|] == w;
    assert Words(w[|w|..]) == [];
  }

  /** A white-space character splits the words: those before it, then those after it. */
  lemma {:induction false} WordsSplitAtSpace(a: string, c: char, b: string)
    requires IsSpace(c)
    ensures Words(a + [c] + b) == Words(a) + Words(b)
    decreases |a|
  {
    if a == [] {
      assert a + [c] + b == [c] + b;
      WordsSpaceCons(c, b);
    } else {
      var x, a' := a[0], a[1..];
      var r := a' + [c] + b;
      assert a + [c] + b == [x] + r;
      assert a == [x] + a';
      assert SolidStart(a') == SolidStart(r) by {
        if a' != [] { assert r[0] == a'[0]; } else { assert r[0] == c; }
      }
      WordsSplitAtSpace(a', c, b);
      WordsCons(x, r);
      WordsCons(x, a');
      PrependAppend(x, a', r, Words(a'), Words(b));
    }
  }

  /** Leading white space adds no word. */
  lemma {:induction false} WordsSkipSpaceRun(s: string, k: nat)
    requires k <= |s| && forall i | 0 <= i < k :: IsSpace(s[i])
    ensures Words(s) == Words(s[k..])
    decreases k
  {
    if k == 0 {
      assert s[0..] == s;
    } else {
      assert s == [s[0]] + s[1..];
      WordsSpaceCons(s[0], s[1..]);
      WordsSkipSpaceRun(s[1..], k - 1);
      assert s[1..][k - 1..] == s[k..];
    }
  }

  /** Trailing white space adds no word. */
  lemma WordsDropTrailing(s: string, n: nat)
    requires n <= |s| && AllSpace(s[n..])
    ensures Words(s) == Words(s[..n])
  {
    if n == |s| {
      assert s[..n] == s;
    } else {
      SplitAtTrailingSpace(s, n);
      WordsSplitAtSpace(s[..n], s[n], s[n + 1..]);
      NoWordsIffAllSpace(s[n + 1..]);
    }
  }

  /** A white-space tail splits off its first character, and the rest is white space too. */
  lemma SplitAtTrailingSpace(s: string, n: nat)
    requires n < |s| && AllSpace(s[n..])
    ensures s == s[..n] + [s[n]] + s[n + 1..]
    ensures IsSpace(s[n]) && AllSpace(s[n + 1..])
  {
    assert s[n..][0] == s[n];
    var t := s[n + 1..];
    forall k | 0 <= k < |t| ensures IsSpace(t[k]) {
      assert t[k] == s[n..][k + 1];
    }
  }

  /** Trimming keeps the words. */
  lemma WordsOfTrim(s: string)
    ensures Words(Trim(s)) == Words(s)
  {
    var a := TrimStart(s);
    WordsSkipSpaceRun(s, |s| - |a|);
    var r := TrimEnd(a);
    WordsDropTrailing(a, |r|);
  }

  /** Collapsing white space keeps the words: a run becomes a single separator, never nothing. */
  lemma {:induction false} WordsOfCollapse(s: string)
    ensures Words(CollapseSpaces(s)) == Words(s)
    decreases |s|
  {
    if s != [] {
      var j := SkipSpaces(s, 0);
      if IsSpace(s[0]) && j >= 2 {
        var rest := s[j..];
        WordsOfCollapse(rest);
        WordsSpaceCons(' ', CollapseSpaces(rest));
        WordsSkipSpaceRun(s, j);
      } else {
        var rest := s[1..];
        assert s == [s[0]] + rest;
        WordsOfCollapse(rest);
        if IsSpace(s[0]) {
          WordsSpaceCons(s[0], CollapseSpaces(rest));
          WordsSpaceCons(s[0], rest);
        } else {
          WordsSolidCons(s[0], CollapseSpaces(rest));
          WordsSolidCons(s[0], rest);
        }
      }
    }
  }

  /** The words joined with `sep` between them. */
  function Join(w: seq<string>, sep: string): string {
    if w == [] then [] else if |w| == 1 then w[0] else w[0] + sep + Join(w[1..], sep)
  }

  /** Whether the only white space in `s` is the plain space. */
  predicate OnlyPlainSpaces(s: string) {
    forall k | 0 <= k < |s| :: IsSpace(s[k]) ==> s[k] == ' '
  }

  /** A trimmed text whose white space is single plain spaces is its words joined with spaces. */
  lemma {:induction false} SpacedIsJoin(r: string)
    requires IsTrimmed(r) && NoDoubleSpace(r) && OnlyPlainSpaces(r)
    ensures r == Join(Words(r), " ")
    decreases |r|
  {
    if r != [] {
      var j := SkipVisible(r, 0);
      if j == |r| {
        WordsOfSolid(r);
      } else {
        var head, rest := r[..j], r[j + 1..];
        SpacedSplit(r, j);
        SpacedIsJoin(rest);
        WordsSplitAtSpace(head, r[j], rest);
        WordsOfSolid(head);
        NoWordsIffAllSpace(rest);
        assert !AllSpace(rest) by { assert IsSpace(rest[0]) == false; }
        JoinCons(head, Words(rest));
      }
    }
  }

  /** Where `r` first has a space, it splits into a solid word, one plain space, and a spaced tail. */
  lemma SpacedSplit(r: string, j: nat)
    requires IsTrimmed(r) && NoDoubleSpace(r) && OnlyPlainSpaces(r)
    requires r != [] && j == SkipVisible(r, 0) && j < |r|
    ensures j + 1 < |r| && r[j] == ' '
    ensures r == r[..j] + [r[j]] + r[j + 1..]
    ensures r[..j] != [] && forall k | 0 <= k < j :: !IsSpace(r[..j][k])
    ensures var rest := r[j + 1..]; rest != [] && !IsSpace(rest[0])
    ensures var rest := r[j + 1..]; IsTrimmed(rest) && NoDoubleSpace(rest) && OnlyPlainSpaces(rest)
  {
    var rest := r[j + 1..];
    assert j > 0;
    assert forall k | 0 <= k < |rest| :: rest[k] == r[j + 1 + k];
  }

  /** Joining a word in front of at least one more adds the separator between them. */
  lemma JoinCons(head: string, w: seq<string>)
    requires w != []
    ensures Join([head] + w, " ") == head + " " + Join(w, " ")
  {
    assert ([head] + w)[1..] == w;
  }

  /**
   * For a trimmed text whose only white space is the plain space, collapsing is
   * joining its words with single spaces.
   */
  lemma CollapseIsJoin(s: string)
    requires IsTrimmed(s) && OnlyPlainSpaces(s)
    ensures CollapseSpaces(s) == Join(Words(s), " ")
  {
    var r := CollapseSpaces(s);
    CollapseLeavesNoDoubleSpace(s);
    CollapseDrawsFrom(s);
    WordsOfCollapse(s);
    if s != [] {
      CollapseKeepsLast(s);
    }
    assert OnlyPlainSpaces(r) by {
      forall k | 0 <= k < |r| ensures IsSpace(r[k]) ==> r[k] == ' ' {
        if r[k] in s {
          var m :| 0 <= m < |s| && s[m] == r[k];
        }
      }
    }
    SpacedIsJoin(r);
  }

  // ---- extractCompanyNameSoft ----

  /** The delimiters each rule's capture is split on. */
  function DelimsOf(p: Pattern): Delims {
    match p
    case CompanyIs => PunctOrClause
    case MyWordIs => PunctOrClause
    case WeAre => PunctOnly
  }

  /** A capture starts with a letter or digit, where no delimiter can start. */
  lemma NoDelimAtCaptureStart(d: Delims, c: string)
    requires c != [] && IsAsciiAlnum(c[0])
    ensures 1 <= |Cut(d, c)|
  {
    var l := DelimText(d, c);
    LowerKeepsClasses(c[0]);
    assert l[0] == c[0] || l[0] == ToLowerAscii(c[0]);
    assert !DelimAt(d, l, 0);
  }

  /** Trimming a text that starts with a letter or digit only drops white space at its end. */
  lemma TrimOfAlnumStart(s: string)
    requires s != [] && IsAsciiAlnum(s[0])
    ensures Trim(s) != [] && Trim(s) == s[..|Trim(s)|] && IsTrimmed(Trim(s))
  {
    assert !IsSpace(s[0]);
    assert SkipSpaces(s, 0) == 0;
    assert TrimStart(s) == s;
    TrimSlice(s);
  }

  /** A prefix keeps the characters it has in common with the text. */
  lemma PrefixInNameClass(c: string, n: nat)
    requires n <= |c|
    requires forall k | 0 <= k < |c| :: InNameClass(c[k])
    ensures forall k | 0 <= k < n :: InNameClass(c[..n][k])
  {
    assert forall k | 0 <= k < n :: c[..n][k] == c[k];
  }

  /** The candidate of a capture: its first letter or digit kept, drawn from the name class, at most 61 long. */
  lemma CandidateOfCapture(d: Delims, c: string)
    requires 1 <= |c| <= 61 && IsAsciiAlnum(c[0])
    requires forall k | 0 <= k < |c| :: InNameClass(c[k])
    ensures 1 <= |Trim(Cut(d, c))| <= 61 && IsAsciiAlnum(Trim(Cut(d, c))[0]) && IsTrimmed(Trim(Cut(d, c)))
    ensures forall k | 0 <= k < |Trim(Cut(d, c))| :: InNameClass(Trim(Cut(d, c))[k])
  {
    var cut := Cut(d, c);
    NoDelimAtCaptureStart(d, c);
    PrefixInNameClass(c, |cut|);
    TrimOfAlnumStart(cut);
    PrefixInNameClass(cut, |Trim(cut)|);
  }

  /**
   * What one rule proposes: its capture, cut at the first delimiter, trimmed and
   * with white-space runs collapsed; nothing when the pattern does not match or
   * the candidate is empty. The candidate is never empty: the capture starts
   * with a letter or digit, so the cut keeps it, and the trim cannot remove it.
   */
  function RuleCandidate(p: Pattern, t: string): (r: Option<string>)
    ensures r.Some? <==> Capture(p, t).Some?
    ensures r.Some? ==> 1 <= |r.value| <= 61 && IsAsciiAlnum(r.value[0]) && IsTrimmed(r.value)
    ensures r.Some? ==> forall k | 0 <= k < |r.value| :: InNameClass(r.value[k])
    ensures r.Some? ==> NoDoubleSpace(r.value)
    ensures r.Some? ==> Words(r.value) == Words(Cut(DelimsOf(p), Capture(p, t).value))
  {
    match Capture(p, t)
    case None => None
    case Some(c) =>
      var cand := Trim(Cut(DelimsOf(p), c));
      CleanCandidate(DelimsOf(p), c);
      CandidateWords(DelimsOf(p), c);
      if cand == [] then None else Some(CollapseSpaces(cand))
  }

  /** A rule's candidate is the words of its cut capture, joined by single spaces. */
  lemma RuleCandidateIsJoin(p: Pattern, t: string)
    requires RuleCandidate(p, t).Some?
    ensures RuleCandidate(p, t).value == Join(Words(Cut(DelimsOf(p), Capture(p, t).value)), " ")
  {
    CandidateWords(DelimsOf(p), Capture(p, t).value);
  }

  /** The cleaned-up capture: cut, trimmed and collapsed, it is still a non-empty trimmed name. */
  lemma CleanCandidate(d: Delims, c: string)
    requires 1 <= |c| <= 61 && IsAsciiAlnum(c[0])
    requires forall k | 0 <= k < |c| :: InNameClass(c[k])
    ensures Trim(Cut(d, c)) != []
    ensures var r := CollapseSpaces(Trim(Cut(d, c)));
      && 1 <= |r| <= 61 && IsAsciiAlnum(r[0]) && IsTrimmed(r) && NoDoubleSpace(r)
      && forall k | 0 <= k < |r| :: InNameClass(r[k])
  {
    CandidateOfCapture(d, c);
    CollapseClean(Trim(Cut(d, c)));
  }

  /**
   * The cleaned-up capture keeps the words of the cut capture, joined by single
   * spaces: the name class admits no white space but the plain space.
   */
  lemma CandidateWords(d: Delims, c: string)
    requires 1 <= |c| <= 61 && IsAsciiAlnum(c[0])
    requires forall k | 0 <= k < |c| :: InNameClass(c[k])
    ensures Words(CollapseSpaces(Trim(Cut(d, c)))) == Words(Cut(d, c))
    ensures CollapseSpaces(Trim(Cut(d, c))) == Join(Words(Cut(d, c)), " ")
  {
    CandidateOfCapture(d, c);
    NameClassPlainSpaces(Trim(Cut(d, c)));
    TrimCollapseWords(Cut(d, c));
  }

  /** The only white space the name class admits is the plain space. */
  lemma NameClassPlainSpaces(s: string)
    requires forall k | 0 <= k < |s| :: InNameClass(s[k])
    ensures OnlyPlainSpaces(s)
  {
  }

  /** Trimming and then collapsing keeps the words, and joins them with single plain spaces. */
  lemma TrimCollapseWords(s: string)
    requires OnlyPlainSpaces(Trim(s))
    ensures Words(CollapseSpaces(Trim(s))) == Words(s)
    ensures CollapseSpaces(Trim(s)) == Join(Words(s), " ")
  {
    var t := Trim(s);
    TrimSlice(s);
    WordsOfTrim(s);
    WordsOfCollapse(t);
    CollapseIsJoin(t);
  }

  /** Collapsing a trimmed name that starts with a letter or digit keeps it one. */
  lemma CollapseClean(s: string)
    requires 1 <= |s| <= 61 && IsAsciiAlnum(s[0]) && IsTrimmed(s)
    requires forall k | 0 <= k < |s| :: InNameClass(s[k])
    ensures var r := CollapseSpaces(s);
      && 1 <= |r| <= 61 && IsAsciiAlnum(r[0]) && IsTrimmed(r) && NoDoubleSpace(r)
      && forall k | 0 <= k < |r| :: InNameClass(r[k])
  {
    CollapseLeavesNoDoubleSpace(s);
    CollapseKeepsLast(s);
    DrawnFromNameClass(s);
  }

  lemma DrawnFromNameClass(s: string)
    requires forall k | 0 <= k < |s| :: InNameClass(s[k])
    ensures forall k | 0 <= k < |CollapseSpaces(s)| :: InNameClass(CollapseSpaces(s)[k])
  {
    var r := CollapseSpaces(s);
    CollapseDrawsFrom(s);
    forall k | 0 <= k < |r| ensures InNameClass(r[k]) {
      if r[k] != ' ' {
        var i :| 0 <= i < |s| && s[i] == r[k];
      }
    }
  }

  /** The short-input fallback: the trimmed input itself when it has one to three words. */
  function Fallback(t: string): Option<string> {
    if 1 <= |Words(t)| <= 3 then Some(t) else None
  }

  /** `extractCompanyNameSoft(raw)`: the first rule that yields a candidate, else the fallback. */
  function ExtractCompanyNameSoft(raw: string): (r: Option<string>)
    ensures AllSpace(raw) ==> r.None?
    ensures r.Some? ==> r.value != [] && IsTrimmed(r.value)
  {
    var t := Trim(raw);
    TrimEmptyIffAllSpace(raw);
    TrimSlice(raw);
    if t == [] then None
    else if RuleCandidate(CompanyIs, t).Some? then RuleCandidate(CompanyIs, t)
    else if RuleCandidate(MyWordIs, t).Some? then RuleCandidate(MyWordIs, t)
    else if RuleCandidate(WeAre, t).Some? then RuleCandidate(WeAre, t)
    else Fallback(t)
  }

  /**
   * The rules in priority order: the first pattern that matches the trimmed input
   * decides the result; when none matches, the trimmed input is the result
   * exactly when it has at most three words.
   */
  lemma ExtractPriority(raw: string)
    requires !AllSpace(raw)
    ensures Capture(CompanyIs, Trim(raw)).Some? ==>
              ExtractCompanyNameSoft(raw) == RuleCandidate(CompanyIs, Trim(raw))
    ensures Capture(CompanyIs, Trim(raw)).None? && Capture(MyWordIs, Trim(raw)).Some? ==>
              ExtractCompanyNameSoft(raw) == RuleCandidate(MyWordIs, Trim(raw))
    ensures Capture(CompanyIs, Trim(raw)).None? && Capture(MyWordIs, Trim(raw)).None? && Capture(WeAre, Trim(raw)).Some? ==>
              ExtractCompanyNameSoft(raw) == RuleCandidate(WeAre, Trim(raw))
    ensures Capture(CompanyIs, Trim(raw)).None? && Capture(MyWordIs, Trim(raw)).None? && Capture(WeAre, Trim(raw)).None? ==>
              (ExtractCompanyNameSoft(raw) == Some(Trim(raw)) <==> |Words(Trim(raw))| <= 3)
              && (ExtractCompanyNameSoft(raw).None? <==> |Words(Trim(raw))| > 3)
  {
    TrimEmptyIffAllSpace(raw);
    NoWordsIffAllSpace(Trim(raw));
    TrimEmptyIffAllSpace(Trim(raw));
  }

  /** A result produced by one of the three patterns is a cleaned-up capture. */
  lemma ExtractFromRule(raw: string)
    requires Capture(CompanyIs, Trim(raw)).Some? || Capture(MyWordIs, Trim(raw)).Some? || Capture(WeAre, Trim(raw)).Some?
    ensures ExtractCompanyNameSoft(raw).Some?
    ensures |ExtractCompanyNameSoft(raw).value| <= 61 && NoDoubleSpace(ExtractCompanyNameSoft(raw).value)
    ensures IsAsciiAlnum(ExtractCompanyNameSoft(raw).value[0])
  {
    assert Trim(raw) != [];
    TrimEmptyIffAllSpace(raw);
    ExtractPriority(raw);
  }

  // ---- toApiMessages ----

  function ApiRoleOf(r: Role): ApiRole {
    if r == User then ApiUser else ApiAssistant
  }

  /** `toApiMessages(chat)`: the same messages in the same order, "user" kept and everything else "assistant". */
  function ToApiMessages(chat: seq<ChatMsg>): (api: seq<ApiMsg>)
    ensures |api| == |chat|
    ensures forall i | 0 <= i < |chat| :: api[i].content == chat[i].text
    ensures forall i | 0 <= i < |chat| :: (api[i].role == ApiUser <==> chat[i].role == User) && api[i].role != ApiSystem
  {
    seq(|chat|, i requires 0 <= i < |chat| => ApiMsg(ApiRoleOf(chat[i].role), chat[i].text))
  }

  /** Reading the API messages back as chat messages. */
  function FromApiMessages(api: seq<ApiMsg>): (chat: seq<ChatMsg>)
    ensures |chat| == |api|
  {
    seq(|api|, i requires 0 <= i < |api| => ChatMsg(if api[i].role == ApiUser then User else Assistant, api[i].content))
  }

  /** The mapping loses nothing: the transcript is recovered from the API messages. */
  lemma ToApiRoundTrip(chat: seq<ChatMsg>)
    ensures FromApiMessages(ToApiMessages(chat)) == chat
  {
    var back := FromApiMessages(ToApiMessages(chat));
    forall i | 0 <= i < |chat| ensures back[i] == chat[i] {
      assert ToApiMessages(chat)[i].content == chat[i].text;
    }
  }

  /** The mapping works message by message, so it distributes over concatenation. */
  lemma ToApiAppend(a: seq<ChatMsg>, b: seq<ChatMsg>)
    ensures ToApiMessages(a + b) == ToApiMessages(a) + ToApiMessages(b)
  {
    var l, r := ToApiMessages(a + b), ToApiMessages(a) + ToApiMessages(b);
    forall i | 0 <= i < |a| + |b| ensures l[i] == r[i] {
      if i < |a| {
        assert (a + b)[i] == a[i];
      } else {
        assert (a + b)[i] == b[i - |a|];
      }
    }
  }
}
