/** String helpers standing in for the handful of Python string
    operations the allocation engine uses: `str.strip`, `re.sub(r"\s+", " ", ...)`,
    `str.upper` / `str.lower`, `in` on strings and `re.sub(r"\D", "", ...)`. */
module Text {

  /** Python's `str.isspace`, which is also what `\s` matches in a `str` pattern
      and what `str.strip()` removes: the ASCII whitespace and separators plus
      the Unicode spaces and line and paragraph separators. */
  predicate IsSpace(c: char) {
    c == ' ' || c == '\t' || c == '\n' || c == '\r' || c == '\U{B}' || c == '\U{C}'
    || ('\U{1C}' <= c <= '\U{1F}')
    || c == '\U{85}' || c == '\U{A0}' || c == '\U{1680}'
    || ('\U{2000}' <= c <= '\U{200A}')
    || c == '\U{2028}' || c == '\U{2029}' || c == '\U{202F}' || c == '\U{205F}' || c == '\U{3000}'
  }

  predicate IsDigit(c: char) { '0' <= c <= '9' }

  /** `\w` in ASCII: letters, digits and underscore. */
  predicate IsWordChar(c: char) {
    IsDigit(c) || ('a' <= c <= 'z') || ('A' <= c <= 'Z') || c == '_'
  }

  /** `s.lstrip()`. */
  function TrimStart(s: string): (r: string)
    ensures |r| <= |s|
  {
    if s != [] && IsSpace(s[0]) then TrimStart(s[1..]) else s
  }

  /** `s.rstrip()`. */
  function TrimEnd(s: string): (r: string)
    ensures |r| <= |s|
  {
    if s != [] && IsSpace(s[|s| - 1]) then TrimEnd(s[..|s| - 1]) else s
  }

  /** What `lstrip` removes is leading whitespace, and what it keeps starts with none. */
  lemma {:induction false} TrimStartFacts(s: string)
    ensures var r := TrimStart(s);
      r == s[|s| - |r|..] && (r == [] || !IsSpace(r[0]))
      && forall i :: 0 <= i < |s| - |r| ==> IsSpace(s[i])
  {
    if s != [] && IsSpace(s[0]) {
      TrimStartFacts(s[1..]);
    }
  }

  lemma {:induction false} TrimEndFacts(s: string)
    ensures var r := TrimEnd(s);
      r == s[..|r|] && (r == [] || !IsSpace(r[|r| - 1]))
      && forall i :: |r| <= i < |s| ==> IsSpace(s[i])
  {
    if s != [] && IsSpace(s[|s| - 1]) {
      TrimEndFacts(s[..|s| - 1]);
    }
  }

  /** Python `s.strip()`. */
  function Strip(s: string): (r: string)
    ensures |r| <= |s|
  {
    TrimEnd(TrimStart(s))
  }

  predicate NoEdgeSpace(s: string) {
    s == [] || (!IsSpace(s[0]) && !IsSpace(s[|s| - 1]))
  }

  /** `strip` leaves no whitespace at either end, and is idempotent. */
  lemma StripFacts(s: string)
    ensures NoEdgeSpace(Strip(s)) && Strip(Strip(s)) == Strip(s)
  {
    var a := TrimStart(s);
    TrimStartFacts(s);
    TrimEndFacts(a);
    var r := TrimEnd(a);
    if r != [] {
      assert r[0] == a[0];
    }
    StripOfStripped(r);
  }

  lemma StripOfStripped(s: string)
    requires NoEdgeSpace(s)
    ensures Strip(s) == s
  {
  }

  /** `re.sub(r"\s+", " ", s)`: every maximal run of whitespace becomes one space. */
  function CollapseSpaces(s: string): (r: string)
    ensures |r| <= |s|
    decreases |s|
  {
    if s == [] then []
    else if IsSpace(s[0]) then [' '] + CollapseSpaces(TrimStart(s))
    else [s[0]] + CollapseSpaces(s[1..])
  }

  /** The characters of `s` that are not whitespace, in order. */
  function NonSpace(s: string): (r: string)
    ensures |r| <= |s|
  {
    if s == [] then [] else (if IsSpace(s[0]) then [] else [s[0]]) + NonSpace(s[1..])
  }

  lemma {:induction false} NonSpaceSkipsLeading(s: string, k: nat)
    requires k <= |s| && forall i :: 0 <= i < k ==> IsSpace(s[i])
    ensures NonSpace(s[k..]) == NonSpace(s)
  {
    if k > 0 {
      NonSpaceSkipsLeading(s[1..], k - 1);
      assert s[1..][k - 1..] == s[k..];
    }
  }

  lemma {:induction false} NonSpaceSkipsTrailing(s: string, k: nat)
    requires k <= |s| && forall i :: k <= i < |s| ==> IsSpace(s[i])
    ensures NonSpace(s[..k]) == NonSpace(s)
  {
    if s != [] {
      if k == 0 {
        NonSpaceSkipsLeading(s, |s|);
        assert s[|s|..] == [] && s[..0] == [];
      } else {
        NonSpaceSkipsTrailing(s[1..], k - 1);
        assert s[..k][1..] == s[1..][..k - 1];
      }
    }
  }

  /** `strip` removes whitespace only. */
  lemma StripNonSpace(s: string)
    ensures NonSpace(Strip(s)) == NonSpace(s)
  {
    var a := TrimStart(s);
    TrimStartFacts(s);
    TrimEndFacts(a);
    NonSpaceSkipsLeading(s, |s| - |a|);
    NonSpaceSkipsTrailing(a, |TrimEnd(a)|);
  }

  /** Collapsing keeps the other characters, in order. */
  lemma {:induction false} CollapseNonSpace(s: string)
    ensures NonSpace(CollapseSpaces(s)) == NonSpace(s)
    decreases |s|
  {
    if s != [] {
      if IsSpace(s[0]) {
        var t := TrimStart(s);
        TrimStartFacts(s);
        assert t == TrimStart(s[1..]);
        CollapseNonSpace(t);
        NonSpaceSkipsLeading(s, |s| - |t|);
        assert CollapseSpaces(s) == [' '] + CollapseSpaces(t);
      } else {
        CollapseNonSpace(s[1..]);
      }
    }
  }

  /** Collapsing keeps whether the text is empty and whether it begins or ends with whitespace. */
  lemma {:induction false} CollapseEdges(s: string)
    ensures var r := CollapseSpaces(s);
      (r == [] <==> s == [])
      && (s != [] ==> (IsSpace(r[0]) <==> IsSpace(s[0])))
      && (s != [] && !IsSpace(s[|s| - 1]) ==> !IsSpace(r[|r| - 1]))
    decreases |s|
  {
    if s != [] {
      var r := CollapseSpaces(s);
      if IsSpace(s[0]) {
        var t := TrimStart(s);
        TrimStartFacts(s);
        assert t == TrimStart(s[1..]);
        CollapseEdges(t);
        assert r == [' '] + CollapseSpaces(t);
        if !IsSpace(s[|s| - 1]) {
          assert t != [] && t[|t| - 1] == s[|s| - 1];
        }
      } else {
        CollapseEdges(s[1..]);
        assert r == [s[0]] + CollapseSpaces(s[1..]);
        if |s| > 1 && !IsSpace(s[|s| - 1]) {
          assert s[1..][|s| - 2] == s[|s| - 1];
        }
      }
    }
  }

  /** Every whitespace character of `s` is a space followed by a non-space, if anything. */
  predicate SingleRuns(s: string) {
    forall i :: 0 <= i < |s| && IsSpace(s[i]) ==> s[i] == ' ' && (i + 1 < |s| ==> !IsSpace(s[i + 1]))
  }

  /** After collapsing, every whitespace character is a space followed by a non-space. */
  lemma {:induction false} CollapseSingle(s: string)
    ensures SingleRuns(CollapseSpaces(s))
    decreases |s|
  {
    if s != [] {
      var r := CollapseSpaces(s);
      if IsSpace(s[0]) {
        var t := TrimStart(s);
        TrimStartFacts(s);
        assert t == TrimStart(s[1..]);
        CollapseSingle(t);
        CollapseEdges(t);
        var c := CollapseSpaces(t);
        assert r == [' '] + c;
        forall i | 0 <= i < |r| && IsSpace(r[i])
          ensures r[i] == ' ' && (i + 1 < |r| ==> !IsSpace(r[i + 1]))
        {
          if i > 0 {
            assert r[i] == c[i - 1];
            if i + 1 < |r| {
              assert r[i + 1] == c[i];
            }
          }
        }
      } else {
        CollapseSingle(s[1..]);
        var c := CollapseSpaces(s[1..]);
        assert r == [s[0]] + c;
        forall i | 0 <= i < |r| && IsSpace(r[i])
          ensures r[i] == ' ' && (i + 1 < |r| ==> !IsSpace(r[i + 1]))
        {
          assert i > 0 && r[i] == c[i - 1];
          if i + 1 < |r| {
            assert r[i + 1] == c[i];
          }
        }
      }
    }
  }

  /** Whitespace in `s` is only single spaces between other characters. */
  predicate SingleSpaced(s: string) {
    forall i :: 0 <= i < |s| && IsSpace(s[i]) ==> s[i] == ' ' && 0 < i < |s| - 1 && !IsSpace(s[i + 1])
  }

  /** A word of `str.split()`: non-empty, without whitespace. */
  predicate IsWord(w: string) {
    w != [] && forall i :: 0 <= i < |w| ==> !IsSpace(w[i])
  }

  /** The non-whitespace characters at the front of `s`. */
  function LeadingWord(s: string): (r: string)
    ensures |r| <= |s| && r == s[..|r|]
    ensures forall i :: 0 <= i < |r| ==> !IsSpace(r[i])
    ensures |r| < |s| ==> IsSpace(s[|r|])
  {
    if s != [] && !IsSpace(s[0]) then [s[0]] + LeadingWord(s[1..]) else []
  }

  /** Python's `s.split()`: the maximal runs of non-whitespace, in order. */
  function Words(s: string): (r: seq<string>)
    ensures forall k :: 0 <= k < |r| ==> IsWord(r[k])
    decreases |s|
  {
    TrimStartFacts(s);
    var t := TrimStart(s);
    if t == [] then []
    else
      var w := LeadingWord(t);
      [w] + Words(t[|w|..])
  }

  /** Python's `" ".join(ws)`. */
  function JoinSpace(ws: seq<string>): (r: string)
    ensures ws != [] ==> |ws[0]| <= |r| && r[..|ws[0]|] == ws[0]
  {
    if ws == [] then []
    else if |ws| == 1 then ws[0]
    else ws[0] + " " + JoinSpace(ws[1..])
  }

  /** `norm` / `_norm_str`: strip, then collapse every whitespace run to one
      space, which is `" ".join(s.split())`. The result is single-spaced and
      keeps every other character, in order. */
  function Norm(s: string): (r: string)
    ensures r == JoinSpace(Words(s))
    ensures SingleSpaced(r) && NonSpace(r) == NonSpace(s)
  {
    NormFacts(s);
    NormWords(s);
    CollapseSpaces(Strip(s))
  }

  /** A text with no leading whitespace is its own `lstrip`. */
  lemma TrimStartNoLead(s: string)
    requires s == [] || !IsSpace(s[0])
    ensures TrimStart(s) == s
  {
  }

  /** `lstrip` of whitespace followed by `x` is `lstrip` of `x`. */
  lemma {:induction false} TrimStartAppend(a: string, x: string)
    requires forall i :: 0 <= i < |x| ==> IsSpace(x[i])
    ensures TrimStart(a + x) == if TrimStart(a) == [] then [] else TrimStart(a) + x
  {
    if a == [] {
      TrimStartFacts(x);
      assert a + x == x;
    } else if IsSpace(a[0]) {
      TrimStartAppend(a[1..], x);
      assert (a + x)[1..] == a[1..] + x;
    }
  }

  /** The leading word stops at the end of `t` when whitespace follows. */
  lemma {:induction false} LeadingWordAppend(t: string, x: string)
    requires x == [] || IsSpace(x[0])
    ensures LeadingWord(t + x) == LeadingWord(t)
  {
    if t == [] {
      assert t + x == x;
    } else if !IsSpace(t[0]) {
      LeadingWordAppend(t[1..], x);
      assert (t + x)[1..] == t[1..] + x;
    }
  }

  /** `collapse(w + rest)` passes the word `w` through unchanged. */
  lemma {:induction false} CollapseWordPrefix(w: string, rest: string)
    requires forall i :: 0 <= i < |w| ==> !IsSpace(w[i])
    ensures CollapseSpaces(w + rest) == w + CollapseSpaces(rest)
  {
    if w == [] {
      assert w + rest == rest;
    } else {
      CollapseWordPrefix(w[1..], rest);
      assert (w + rest)[1..] == w[1..] + rest;
    }
  }

  /** Trailing whitespace adds no word. */
  lemma {:induction false} WordsAfterSpaces(a: string, x: string)
    requires forall i :: 0 <= i < |x| ==> IsSpace(x[i])
    ensures Words(a + x) == Words(a)
    decreases |a|
  {
    TrimStartFacts(a);
    TrimStartAppend(a, x);
    var t := TrimStart(a);
    if t != [] {
      var w := LeadingWord(t);
      LeadingWordAppend(t, x);
      assert (t + x)[|w|..] == t[|w|..] + x;
      WordsAfterSpaces(t[|w|..], x);
    }
  }

  /** `strip` changes no word. */
  lemma WordsStrip(s: string)
    ensures Words(Strip(s)) == Words(s)
  {
    WordsTrimStart(s);
    WordsTrimEnd(TrimStart(s));
  }

  lemma WordsTrimStart(s: string)
    ensures Words(TrimStart(s)) == Words(s)
  {
    TrimStartFacts(s);
    TrimStartNoLead(TrimStart(s));
  }

  lemma WordsTrimEnd(a: string)
    ensures Words(TrimEnd(a)) == Words(a)
  {
    TrimEndFacts(a);
    var e := TrimEnd(a);
    assert a == e + a[|e|..];
    WordsAfterSpaces(e, a[|e|..]);
  }

  /** On a stripped text, collapsing the whitespace runs is joining the words. */
  lemma {:induction false} CollapseStripped(s: string)
    requires NoEdgeSpace(s)
    ensures CollapseSpaces(s) == JoinSpace(Words(s))
    decreases |s|
  {
    if s != [] {
      TrimStartNoLead(s);
      var w := LeadingWord(s);
      var rest := s[|w|..];
      assert s == w + rest;
      CollapseWordPrefix(w, rest);
      assert Words(s) == [w] + Words(rest);
      if rest != [] {
        var t := TrimStart(rest);
        TrimStartFacts(rest);
        assert rest[|rest| - 1] == s[|s| - 1];
        assert t != [] && t[|t| - 1] == s[|s| - 1];
        CollapseStripped(t);
        TrimStartNoLead(t);
        assert Words(rest) == Words(t);
        assert CollapseSpaces(rest) == [' '] + CollapseSpaces(t);
        assert ([w] + Words(t))[1..] == Words(t);
      }
    }
  }

  /** `re.sub(r"\s+", " ", s.strip())` is `" ".join(s.split())`. */
  lemma NormWords(s: string)
    ensures CollapseSpaces(Strip(s)) == JoinSpace(Words(s))
  {
    StripFacts(s);
    CollapseStripped(Strip(s));
    WordsStrip(s);
  }

  /** Splitting `w + " " + rest` yields `w`, then the words of `rest`. */
  lemma WordsOfJoinStep(ws: seq<string>)
    requires |ws| > 1 && IsWord(ws[0]) && IsWord(ws[1])
    ensures Words(JoinSpace(ws)) == [ws[0]] + Words(JoinSpace(ws[1..]))
  {
    var w := ws[0];
    var rest := JoinSpace(ws[1..]);
    var j := JoinSpace(ws);
    assert j == w + (" " + rest);
    TrimStartNoLead(j);
    LeadingWordAppend(w, " " + rest);
    assert j[|w|..] == " " + rest;
    assert rest[0] == ws[1][0];
    TrimStartNoLead(rest);
    assert Words(" " + rest) == Words(rest);
  }

  /** Splitting a join of words gives back the words. */
  lemma {:induction false} SplitJoinRoundTrip(ws: seq<string>)
    requires forall k :: 0 <= k < |ws| ==> IsWord(ws[k])
    ensures Words(JoinSpace(ws)) == ws
  {
    if |ws| == 1 {
      var w := ws[0];
      TrimStartNoLead(w);
      LeadingWordAppend(w, []);
      assert w + [] == w;
      assert w[|w|..] == [];
    } else if |ws| > 1 {
      WordsOfJoinStep(ws);
      SplitJoinRoundTrip(ws[1..]);
    }
  }

  lemma NormFacts(s: string)
    ensures SingleSpaced(CollapseSpaces(Strip(s))) && NonSpace(CollapseSpaces(Strip(s))) == NonSpace(s)
  {
    StripFacts(s);
    StripNonSpace(s);
    CollapseNonSpace(Strip(s));
    CollapseEdges(Strip(s));
    CollapseSingle(Strip(s));
  }

  lemma {:induction false} CollapseSingleSpaced(s: string)
    requires SingleRuns(s)
    ensures CollapseSpaces(s) == s
    decreases |s|
  {
    if s != [] {
      if IsSpace(s[0]) {
        if |s| > 1 {
          assert TrimStart(s[1..]) == s[1..];
        }
        assert TrimStart(s) == s[1..];
      }
      CollapseSingleSpaced(s[1..]);
    }
  }

  /** `norm` leaves single-spaced text alone. */
  lemma NormOfSingleSpaced(s: string)
    requires SingleSpaced(s)
    ensures Norm(s) == s
  {
    StripOfStripped(s);
    CollapseSingleSpaced(s);
  }

  /** `norm` keeps the words of a text: it changes only the whitespace between them. */
  lemma NormKeepsWords(s: string)
    ensures Words(Norm(s)) == Words(s)
  {
    SplitJoinRoundTrip(Words(s));
  }

  /** The texts `norm` leaves unchanged are exactly the single-spaced ones, so
      `norm` is idempotent. */
  lemma NormFixedPoints(s: string)
    ensures Norm(s) == s <==> SingleSpaced(s)
    ensures Norm(Norm(s)) == Norm(s)
  {
    if SingleSpaced(s) {
      NormOfSingleSpaced(s);
    }
    NormOfSingleSpaced(Norm(s));
  }


  function UpperChar(c: char): char {
    if 'a' <= c <= 'z' then (c as int - 32) as char else c
  }

  function LowerChar(c: char): char {
    if 'A' <= c <= 'Z' then (c as int + 32) as char else c
  }

  function Upper(s: string): (r: string)
    ensures |r| == |s| && forall i :: 0 <= i < |s| ==> r[i] == UpperChar(s[i])
  {
    seq(|s|, i requires 0 <= i < |s| => UpperChar(s[i]))
  }

  function Lower(s: string): (r: string)
    ensures |r| == |s| && forall i :: 0 <= i < |s| ==> r[i] == LowerChar(s[i])
  {
    seq(|s|, i requires 0 <= i < |s| => LowerChar(s[i]))
  }

  lemma LowerKeepsEdges(s: string)
    requires NoEdgeSpace(s)
    ensures NoEdgeSpace(Lower(s)) && Lower(Lower(s)) == Lower(s)
  {
  }

  /** `s[k..].startswith(needle)`. */
  predicate StartsWithAt(s: string, k: nat, needle: string) {
    k + |needle| <= |s| && s[k..k + |needle|] == needle
  }

  /** Python `needle in s`. */
  predicate Contains(s: string, needle: string) {
    exists k: nat :: k <= |s| - |needle| && StartsWithAt(s, k, needle)
  }

  lemma ContainsAt(s: string, needle: string, k: nat)
    requires StartsWithAt(s, k, needle)
    ensures Contains(s, needle)
  {
  }

  lemma ContainsSelf(s: string)
    ensures Contains(s, s)
  {
    assert StartsWithAt(s, 0, s);
  }

  /** `re.sub(r"\D", "", s)`. */
  function DigitsOf(s: string): (r: string)
    ensures |r| <= |s| && forall i :: 0 <= i < |r| ==> IsDigit(r[i])
  {
    if s == [] then [] else (if IsDigit(s[0]) then [s[0]] else []) + DigitsOf(s[1..])
  }

  /** `int(d)` for a string of ASCII digits (leading zeros allowed); `int("")` is
      not defined in Python, callers write `or '0'` first. */
  function DecimalValue(d: string): (n: nat)
    requires forall i :: 0 <= i < |d| ==> IsDigit(d[i])
  {
    if d == [] then 0
    else
      assert IsDigit(d[|d| - 1]);
      10 * DecimalValue(d[..|d| - 1]) + (d[|d| - 1] as int - '0' as int)
  }

  /** `int(re.sub(r'\D', '', s) or '0')`: the number made of every digit of `s`. */
  function EmbeddedNumber(s: string): nat {
    DecimalValue(DigitsOf(s))
  }

  /** Decimal digits of `n`, most significant first (Python's `str(n)` for `n >= 0`). */
  function DecimalString(n: nat): (d: string)
    ensures d != [] && forall i :: 0 <= i < |d| ==> IsDigit(d[i])
  {
    var last := [('0' as int + n % 10) as char];
    if n < 10 then last else DecimalString(n / 10) + last
  }

  /** Reading back what `DecimalString` wrote gives the number. */
  lemma {:induction false} DecimalRoundTrip(n: nat)
    ensures DecimalValue(DecimalString(n)) == n
  {
    var d := DecimalString(n);
    if n >= 10 {
      DecimalRoundTrip(n / 10);
      assert d[..|d| - 1] == DecimalString(n / 10);
    }
  }

  /** The first index at or after `from` where `s` has no whitespace (or `|s|`). */
  function SkipSpaces(s: string, from: nat): (r: nat)
    requires from <= |s|
    ensures from <= r <= |s| && (r < |s| ==> !IsSpace(s[r]))
    ensures forall i :: from <= i < r ==> IsSpace(s[i])
    decreases |s| - from
  {
    if from < |s| && IsSpace(s[from]) then SkipSpaces(s, from + 1) else from
  }

  /** The first index at or after `from` where `s` has no ASCII digit (or `|s|`). */
  function SkipDigits(s: string, from: nat): (r: nat)
    requires from <= |s|
    ensures from <= r <= |s| && (r < |s| ==> !IsDigit(s[r]))
    ensures forall i :: from <= i < r ==> IsDigit(s[i])
    decreases |s| - from
  {
    if from < |s| && IsDigit(s[from]) then SkipDigits(s, from + 1) else from
  }

  /** The first index of `c` in `s`, or `|s|` when there is none. */
  function IndexOfChar(s: string, c: char): (r: nat)
    ensures r <= |s| && (r < |s| ==> s[r] == c)
    ensures forall i :: 0 <= i < r ==> s[i] != c
  {
    if s == [] then 0 else if s[0] == c then 0 else 1 + IndexOfChar(s[1..], c)
  }
}
