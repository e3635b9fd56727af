/**
 * The pieces of the Java (and Python) string library that the review reader and the
 * file writers rely on: decimal rendering of an integer (Integer.toString in Java,
 * str on an int in Python), Integer.parseInt, String.trim, split("\\n") and the chunk
 * separator split("\\n\\s*\\n+"). Each is written out so that the round trip between
 * the Python writer and the Java reader can be proved.
 */
module JavaText {
  import opened Wrappers

  const MinInt: int := -0x8000_0000
  const MaxInt: int := 0x7FFF_FFFF

  predicate IsDigit(c: char) { '0' <= c <= '9' }

  predicate AllDigits(s: string) { forall k :: 0 <= k < |s| ==> IsDigit(s[k]) }

  function DigitChar(d: nat): (c: char)
    requires d < 10
    ensures IsDigit(c) && c as int - '0' as int == d
  {
    ('0' as int + d) as char
  }

  /** Decimal digits of n, most significant first, without leading zeros. */
  function NatToDigits(n: nat): (s: string)
    ensures |s| > 0 && AllDigits(s)
    ensures |s| > 1 ==> s[0] != '0'
  {
    if n < 10 then [DigitChar(n)] else NatToDigits(n / 10) + [DigitChar(n % 10)]
  }

  /** Integer.toString(n) / str(n): a minus sign for negative numbers, then the digits. */
  function IntToString(n: int): (s: string)
    ensures |s| > 0
    ensures n >= 0 ==> AllDigits(s) && (|s| > 1 ==> s[0] != '0')
    ensures n < 0 ==> |s| > 1 && s[0] == '-' && AllDigits(s[1..]) && s[1] != '0'
  {
    if n < 0 then "-" + NatToDigits(-n) else NatToDigits(n)
  }

  /** The rendering has no newline and starts and ends with a visible character. */
  lemma IntToStringShape(n: int)
    ensures var s := IntToString(n);
            |s| > 0 && s[0] > ' ' && s[|s| - 1] > ' ' && '\n' !in s
  {
    var s := IntToString(n);
    assert forall k :: 0 <= k < |s| ==> IsDigit(s[k]) || s[k] == '-';
  }

  /** The number a string of decimal digits denotes. */
  function DigitsValue(s: string): (v: nat)
    requires AllDigits(s)
  {
    if s == [] then 0
    else
      assert IsDigit(s[|s| - 1]);
      10 * DigitsValue(s[..|s| - 1]) + (s[|s| - 1] as int - '0' as int)
  }

  /**
   * Integer.parseInt(s): an optional '-' or '+', then at least one ASCII digit, with a
   * value in the 32-bit range. Anything else is a NumberFormatException, here None.
   */
  function ParseInt(s: string): (r: Option<int>)
    ensures r.Some? ==> MinInt <= r.value <= MaxInt
    ensures r.Some? ==> |s| > 0 && (IsDigit(s[0]) || s[0] == '-' || s[0] == '+')
    ensures r.Some? && |s| > 0 && s[0] != '-' ==> r.value >= 0
  {
    if |s| == 0 then None
    else
      var digits := if s[0] == '-' || s[0] == '+' then s[1..] else s;
      if |digits| == 0 || !AllDigits(digits) then None
      else
        var magnitude: int := DigitsValue(digits);
        var v: int := if s[0] == '-' then -magnitude else magnitude;
        if MinInt <= v <= MaxInt then Some(v) else None
  }

  lemma {:induction false} DigitsRoundTrip(n: nat)
    ensures DigitsValue(NatToDigits(n)) == n
  {
    if n >= 10 {
      var s := NatToDigits(n);
      assert s[..|s| - 1] == NatToDigits(n / 10);
      DigitsRoundTrip(n / 10);
    }
  }

  /** Integer.parseInt reads back every 32-bit value Integer.toString writes. */
  lemma ParseIntToString(n: int)
    requires MinInt <= n <= MaxInt
    ensures ParseInt(IntToString(n)) == Some(n)
  {
    if n < 0 {
      ParseNegative(n);
    } else {
      ParseNonNegative(n);
    }
  }

  lemma ParseNonNegative(n: nat)
    requires n <= MaxInt
    ensures ParseInt(NatToDigits(n)) == Some(n)
  {
    var s := NatToDigits(n);
    assert IsDigit(s[0]);
    DigitsRoundTrip(n);
  }

  lemma ParseNegative(n: int)
    requires MinInt <= n < 0
    ensures ParseInt("-" + NatToDigits(-n)) == Some(n)
  {
    var s := "-" + NatToDigits(-n);
    assert s[0] == '-' && s[1..] == NatToDigits(-n);
    DigitsRoundTrip(-n);
  }

  // ---------------------------------------------------------------- String.trim

  /** String.trim: drops every leading code point up to U+0020. */
  function TrimStart(s: string): (r: string)
    ensures r == [] || r[0] > ' '
  {
    if |s| > 0 && s[0] <= ' ' then TrimStart(s[1..]) else s
  }

  /** What TrimStart drops is a prefix of characters up to U+0020. */
  lemma {:induction false} TrimStartDrops(s: string)
    ensures var r := TrimStart(s);
            |r| <= |s| && r == s[|s| - |r|..] && forall k :: 0 <= k < |s| - |r| ==> s[k] <= ' '
  {
    if |s| > 0 && s[0] <= ' ' {
      TrimStartDrops(s[1..]);
    }
  }

  /** String.trim: drops every trailing code point up to U+0020. */
  function TrimEnd(s: string): (r: string)
    ensures r == [] || r[|r| - 1] > ' '
  {
    if |s| > 0 && s[|s| - 1] <= ' ' then TrimEnd(s[..|s| - 1]) else s
  }

  /** What TrimEnd drops is a suffix of characters up to U+0020. */
  lemma {:induction false} TrimEndDrops(s: string)
    ensures var r := TrimEnd(s);
            |r| <= |s| && r == s[..|r|] && forall k :: |r| <= k < |s| ==> s[k] <= ' '
  {
    if |s| > 0 && s[|s| - 1] <= ' ' {
      TrimEndDrops(s[..|s| - 1]);
    }
  }

  function Trim(s: string): (r: string)
    ensures r == [] || (r[0] > ' ' && r[|r| - 1] > ' ')
  {
    TrimEndDrops(TrimStart(s));
    TrimEnd(TrimStart(s))
  }

  /** Trimming removes a blank prefix and nothing of a string that already starts and ends visibly. */
  lemma TrimPadded(pad: string, s: string)
    requires forall k :: 0 <= k < |pad| ==> pad[k] <= ' '
    requires |s| > 0 && s[0] > ' ' && s[|s| - 1] > ' '
    ensures Trim(pad + s) == s
  {
    var t := TrimStart(pad + s);
    TrimStartDrops(pad + s);
    TrimEndDrops(s);
    assert (pad + s)[|pad|] == s[0];
    assert |t| >= |s|;
    assert t == s;
  }

  // ------------------------------------------------------------ split("\\n")

  /** The pieces of s between its newline characters, before Java drops trailing empty ones. */
  function NewlinePieces(s: string): (r: seq<string>)
    ensures |r| > 0
  {
    if s == [] then [""]
    else
      var rest := NewlinePieces(s[1..]);
      if s[0] == '\n' then [""] + rest
      else [[s[0]] + rest[0]] + rest[1..]
  }

  /** The inverse of NewlinePieces: the pieces with a newline between neighbours. */
  function JoinLines(pieces: seq<string>): (s: string)
    requires |pieces| > 0
  {
    if |pieces| == 1 then pieces[0] else pieces[0] + "\n" + JoinLines(pieces[1..])
  }

  /** The pieces hold no newline. */
  lemma {:induction false} NewlinePiecesClean(s: string)
    ensures forall k :: 0 <= k < |NewlinePieces(s)| ==> '\n' !in NewlinePieces(s)[k]
  {
    if s != [] {
      NewlinePiecesClean(s[1..]);
      var rest := NewlinePieces(s[1..]);
      var r := NewlinePieces(s);
      if s[0] == '\n' {
        assert r == [""] + rest;
        forall k | 0 <= k < |r| ensures '\n' !in r[k] {
          if k > 0 { assert r[k] == rest[k - 1]; }
        }
      } else {
        assert r[0] == [s[0]] + rest[0] && '\n' !in rest[0];
        forall k | 0 <= k < |r| ensures '\n' !in r[k] {
          if k > 0 { assert r[k] == rest[k]; }
        }
      }
    }
  }

  /** Joining the pieces with newlines gives the string back. */
  lemma {:induction false} NewlinePiecesJoin(s: string)
    ensures JoinLines(NewlinePieces(s)) == s
  {
    if s != [] {
      NewlinePiecesJoin(s[1..]);
      var rest := NewlinePieces(s[1..]);
      var r := NewlinePieces(s);
      if s[0] == '\n' {
        assert r[1..] == rest;
      } else if |rest| == 1 {
        assert JoinLines(r) == [s[0]] + rest[0];
      } else {
        assert r[1..] == rest[1..];
        assert JoinLines(r) == [s[0]] + (rest[0] + "\n" + JoinLines(rest[1..]));
      }
      assert s == [s[0]] + s[1..];
    }
  }

  /** Java's split with limit 0 removes the empty strings at the end of its result. */
  function DropTrailingEmpty(xs: seq<string>): (r: seq<string>)
    ensures r == [] || r[|r| - 1] != ""
  {
    if xs != [] && xs[|xs| - 1] == "" then DropTrailingEmpty(xs[..|xs| - 1]) else xs
  }

  /** What DropTrailingEmpty drops is a run of empty strings at the end. */
  lemma {:induction false} DropTrailingEmptyDrops(xs: seq<string>)
    ensures var r := DropTrailingEmpty(xs);
            |r| <= |xs| && r == xs[..|r|] && forall k :: |r| <= k < |xs| ==> xs[k] == ""
  {
    if xs != [] && xs[|xs| - 1] == "" {
      DropTrailingEmptyDrops(xs[..|xs| - 1]);
    }
  }

  /**
   * String.split("\\n"): the string itself when it has no newline; otherwise the pieces
   * between newlines, none of which holds one, without the empty ones at the end.
   */
  function SplitLines(s: string): (lines: seq<string>)
    ensures forall k :: 0 <= k < |lines| ==> '\n' !in lines[k]
    ensures '\n' in s ==> lines == [] || lines[|lines| - 1] != ""
  {
    if '\n' !in s then [s]
    else
      NewlinePiecesClean(s);
      DropTrailingEmptyDrops(NewlinePieces(s));
      DropTrailingEmpty(NewlinePieces(s))
  }

  lemma {:induction false} NewlinePiecesAfterLine(line: string, rest: string)
    requires '\n' !in line
    ensures NewlinePieces(line + "\n" + rest) == [line] + NewlinePieces(rest)
  {
    if line != [] {
      assert (line + "\n" + rest)[1..] == line[1..] + "\n" + rest;
      NewlinePiecesAfterLine(line[1..], rest);
      assert [line[0]] + line[1..] == line;
    }
  }

  lemma {:induction false} NewlinePiecesOfLine(line: string)
    requires '\n' !in line
    ensures NewlinePieces(line) == [line]
  {
    if line != [] {
      assert '\n' !in line[1..] by {
        forall k | 0 <= k < |line[1..]| ensures line[1..][k] != '\n' { assert line[1..][k] == line[k + 1]; }
      }
      NewlinePiecesOfLine(line[1..]);
      assert [line[0]] + line[1..] == line;
    }
  }

  /** A two-line string splits into its two lines. */
  lemma SplitTwoLines(first: string, second: string)
    requires '\n' !in first && '\n' !in second && second != ""
    ensures SplitLines(first + "\n" + second) == [first, second]
  {
    NewlinePiecesAfterLine(first, second);
    NewlinePiecesOfLine(second);
    assert (first + "\n" + second)[|first|] == '\n';
  }

  // ----------------------------------------------------- split("\\n\\s*\\n+")

  /** The regular-expression class \s: space, tab, newline, U+000B, form feed, carriage return. */
  predicate IsRegexSpace(c: char) {
    c == ' ' || c == '\t' || c == '\n' || c == '\r' || c as int == 0x0B || c as int == 0x0C
  }

  /** End of the run of \s characters that starts at i. */
  function SpaceRunEnd(s: string, i: nat): (e: nat)
    requires i <= |s|
    ensures i <= e <= |s|
    decreases |s| - i
  {
    if i < |s| && IsRegexSpace(s[i]) then SpaceRunEnd(s, i + 1) else i
  }

  /** The run is all \s and stops at a character outside \s or at the end. */
  lemma {:induction false} SpaceRunEndSpans(s: string, i: nat)
    requires i <= |s|
    ensures var e := SpaceRunEnd(s, i);
            (forall k :: i <= k < e ==> IsRegexSpace(s[k])) && (e == |s| || !IsRegexSpace(s[e]))
    decreases |s| - i
  {
    if i < |s| && IsRegexSpace(s[i]) {
      SpaceRunEndSpans(s, i + 1);
    }
  }

  /** The last newline in s[i..e], if any. */
  function LastNewline(s: string, i: nat, e: nat): (q: Option<nat>)
    requires i <= e <= |s|
    ensures q.Some? ==> i <= q.value < e && s[q.value] == '\n'
    decreases e
  {
    if e == i then None else if s[e - 1] == '\n' then Some(e - 1) else LastNewline(s, i, e - 1)
  }

  /** No newline follows the one found, and there is none in the range when none is found. */
  lemma {:induction false} LastNewlineIsLast(s: string, i: nat, e: nat)
    requires i <= e <= |s|
    ensures var q := LastNewline(s, i, e);
            (q.Some? ==> forall k :: q.value < k < e ==> s[k] != '\n')
            && (q.None? ==> forall k :: i <= k < e ==> s[k] != '\n')
    decreases e
  {
    if e != i && s[e - 1] != '\n' {
      LastNewlineIsLast(s, i, e - 1);
    }
  }

  /**
   * End of the match of \n\s*\n+ that starts at p, if there is one. The greedy \s*
   * swallows the whole run of spaces after p and gives characters back until a newline
   * follows it; \n+ then takes that newline, which is the last one of the run.
   */
  function MatchEndAt(s: string, p: nat): (e: Option<nat>)
    requires p <= |s|
    ensures e.Some? ==> p + 2 <= e.value <= |s| && s[p] == '\n' && s[e.value - 1] == '\n'
  {
    if p < |s| && s[p] == '\n' then
      match LastNewline(s, p + 1, SpaceRunEnd(s, p + 1))
      case Some(q) => Some(q + 1)
      case None => None
    else None
  }

  /** The leftmost match at p or later, as (start, end). */
  function FindFrom(s: string, p: nat): (m: Option<(nat, nat)>)
    requires p <= |s|
    ensures m.Some? ==> p <= m.value.0 <= |s| && MatchEndAt(s, m.value.0) == Some(m.value.1)
    decreases |s| - p
  {
    match MatchEndAt(s, p)
    case Some(e) => Some((p, e))
    case None => if p == |s| then None else FindFrom(s, p + 1)
  }

  /** The text before each match, then what follows the last one. */
  function SplitPieces(s: string): (r: seq<string>)
    ensures |r| > 0
    decreases |s|
  {
    match FindFrom(s, 0)
    case None => [s]
    case Some((p, e)) => [s[..p]] + SplitPieces(s[e..])
  }

  /**
   * String.split("\\n\\s*\\n+"): the whole string when nothing matches, otherwise the
   * pieces without the empty ones at the end. Matching only looks forward, so searching
   * the rest of the string after a match is the same as Matcher.find continuing there.
   */
  function SplitChunks(s: string): (chunks: seq<string>)
    ensures chunks == [s] <==> FindFrom(s, 0).None?
    ensures FindFrom(s, 0).Some? ==> chunks == [] || chunks[|chunks| - 1] != ""
  {
    if FindFrom(s, 0).None? then [s]
    else
      DropTrailingEmptyDrops(SplitPieces(s));
      DropTrailingEmpty(SplitPieces(s))
  }

  /** The search finds the leftmost match: no position before it matches, and none at all when it finds nothing. */
  lemma {:induction false} FindFromLeftmost(s: string, p: nat)
    requires p <= |s|
    ensures var m := FindFrom(s, p);
            (m.Some? ==> forall k :: p <= k < m.value.0 ==> MatchEndAt(s, k).None?)
            && (m.None? ==> forall k :: p <= k <= |s| ==> MatchEndAt(s, k).None?)
    decreases |s| - p
  {
    if MatchEndAt(s, p).None? && p < |s| {
      FindFromLeftmost(s, p + 1);
    }
  }

  /** The search reaches the first position that matches, past positions that do not. */
  lemma {:induction false} FindFromReaches(s: string, p: nat, m: nat)
    requires p <= m <= |s|
    requires forall k :: p <= k < m ==> MatchEndAt(s, k).None?
    requires MatchEndAt(s, m).Some?
    ensures FindFrom(s, p) == Some((m, MatchEndAt(s, m).value))
    decreases m - p
  {
    if p < m {
      FindFromReaches(s, p + 1, m);
    }
  }

  /**
   * In a + "\n\n" + rest, where every newline of a is followed by a visible character
   * and rest does not start with a space, the first separator is the "\n\n" after a.
   */
  lemma FirstSeparator(a: string, rest: string)
    requires forall k :: 0 <= k < |a| && a[k] == '\n' ==> k + 1 < |a| && a[k + 1] > ' '
    requires rest == [] || rest[0] > ' '
    ensures FindFrom(a + "\n\n" + rest, 0) == Some((|a|, |a| + 2))
  {
    var s := a + "\n\n" + rest;
    forall k | 0 <= k < |a| ensures MatchEndAt(s, k).None? {
      if s[k] == '\n' {
        assert s[k + 1] == a[k + 1];
        assert SpaceRunEnd(s, k + 1) == k + 1;
      }
    }
    assert s[|a|] == '\n' && s[|a| + 1] == '\n';
    assert |a| + 2 == |s| || s[|a| + 2] == rest[0];
    assert SpaceRunEnd(s, |a| + 1) == |a| + 2 by {
      assert SpaceRunEnd(s, |a| + 2) == |a| + 2;
    }
    assert LastNewline(s, |a| + 1, |a| + 2) == Some(|a| + 1);
    FindFromReaches(s, 0, |a|);
  }

  /** So the split cuts such a text at that blank line first. */
  lemma FirstPiece(a: string, rest: string)
    requires forall k :: 0 <= k < |a| && a[k] == '\n' ==> k + 1 < |a| && a[k + 1] > ' '
    requires rest == [] || rest[0] > ' '
    ensures SplitPieces(a + "\n\n" + rest) == [a] + SplitPieces(rest)
  {
    var s := a + "\n\n" + rest;
    FirstSeparator(a, rest);
    assert s[..|a|] == a && s[|a| + 2..] == rest;
  }
}
