/**
 * The pieces of java.lang.String and of the StringUtils helpers (Spring's `hasText`,
 * Commons Lang's `isBlank`) that the logging core relies on, over Dafny strings:
 * repetition, whitespace, substring search, decimal rendering of integers and
 * `String.split` with a one-character separator.
 */
module Text {
  import opened Wrappers

  /** `s.repeat(n)`. */
  function Repeat(s: string, n: nat): (r: string)
    ensures |r| == n * |s|
    decreases n
  {
    if n == 0 then [] else s + Repeat(s, n - 1)
  }

  /** Java's `Character.isWhitespace`: the Unicode space, line and paragraph separators
      other than the no-break spaces, plus the ASCII controls TAB to CR and FS to US. */
  predicate IsWhitespace(c: char) {
    || c == ' ' || c == '\t' || c == '\n' || c == '\U{B}' || c == '\U{C}' || c == '\r'
    || ('\U{1C}' <= c <= '\U{1F}')
    || c == '\U{1680}'
    || ('\U{2000}' <= c <= '\U{2006}')
    || ('\U{2008}' <= c <= '\U{200A}')
    || c == '\U{2028}' || c == '\U{2029}' || c == '\U{205F}' || c == '\U{3000}'
  }

  /** Commons Lang `isBlank` on a non-null string; Spring's `hasText` is its negation. */
  predicate IsBlank(s: string) {
    forall i :: 0 <= i < |s| ==> IsWhitespace(s[i])
  }

  /** Commons Lang `isNotBlank` on a string that may be null. */
  predicate IsNotBlank(s: Option<string>) {
    s.Some? && !IsBlank(s.value)
  }

  /** What string concatenation appends for a possibly-null string. */
  function NullToString(s: Option<string>): string {
    if s.None? then "null" else s.value
  }

  predicate StartsWith(s: string, prefix: string) {
    |prefix| <= |s| && s[..|prefix|] == prefix
  }

  predicate EndsWith(s: string, suffix: string) {
    |suffix| <= |s| && s[|s| - |suffix|..] == suffix
  }

  lemma StartsWithConcat(x: string, y: string)
    ensures StartsWith(x + y, x)
  {
    assert (x + y)[..|x|] == x;
  }

  lemma EndsWithConcat(x: string, y: string)
    ensures EndsWith(x + y, y)
  {
    assert (x + y)[|x|..] == y;
  }

  /** `t` occurs in `s` starting at position i. */
  predicate OccursAt(s: string, t: string, i: int) {
    0 <= i && i + |t| <= |s| && forall j :: 0 <= j < |t| ==> s[i + j] == t[j]
  }

  /** `s.contains(t)`: `t` occurs in `s` at some position. */
  predicate Contains(s: string, t: string) {
    exists i :: 0 <= i <= |s| && OccursAt(s, t, i)
  }

  /** A string contains each of its prefixes. */
  lemma ContainsPrefix(s: string, t: string)
    requires StartsWith(s, t)
    ensures Contains(s, t)
  {
    assert OccursAt(s, t, 0) by {
      forall j | 0 <= j < |t|
        ensures s[j] == t[j]
      {
        assert s[..|t|][j] == s[j];
      }
    }
  }

  /** Text around a string does not hide what it contains. */
  lemma ContainsWithin(p: string, s: string, q: string, t: string)
    requires Contains(s, t)
    ensures Contains(p + s + q, t)
  {
    var i :| 0 <= i <= |s| && OccursAt(s, t, i);
    var all := p + s + q;
    assert OccursAt(all, t, |p| + i) by {
      forall j | 0 <= j < |t|
        ensures all[|p| + i + j] == t[j]
      {
        assert all[|p| + i + j] == s[i + j];
      }
    }
  }

  // ---------------------------------------------------------------------------
  // Decimal rendering (Long.toString, StringBuilder.append(long) / append(int))

  predicate IsDigit(c: char) {
    '0' <= c <= '9'
  }

  predicate AllDigits(s: string) {
    forall i :: 0 <= i < |s| ==> IsDigit(s[i])
  }

  function DigitChar(d: nat): (c: char)
    requires d < 10
    ensures IsDigit(c)
  {
    (48 + d) as char
  }

  function DigitValue(c: char): nat
    requires IsDigit(c)
  {
    (c as int) - 48
  }

  /** The decimal digits of `n`, most significant first, without leading zeros. */
  function Digits(n: nat): (r: string)
    ensures |r| > 0 && AllDigits(r)
    ensures n >= 10 ==> |r| > 1 && r[0] != '0'
    decreases n
  {
    if n < 10 then [DigitChar(n)] else Digits(n / 10) + [DigitChar(n % 10)]
  }

  /** `Long.toString(n)`: an optional minus sign followed by the digits of |n|. */
  function IntToDecimal(n: int): string {
    if n < 0 then "-" + Digits(-n) else Digits(n)
  }

  /** The value of a string of decimal digits (empty reads as 0). */
  function DigitsValue(s: string): nat
    requires AllDigits(s)
    decreases |s|
  {
    if s == [] then 0 else DigitsValue(s[..|s| - 1]) * 10 + DigitValue(s[|s| - 1])
  }

  /** `Long.parseLong` on the strings IntToDecimal produces: the inverse used to state
      what a rendered number says. Anything that is not an optional '-' followed by
      digits reads as None. */
  function ParseDecimal(s: string): Option<int> {
    if s != [] && s[0] == '-' && |s| > 1 && AllDigits(s[1..]) then Some(-(DigitsValue(s[1..]) as int))
    else if s != [] && AllDigits(s) then Some(DigitsValue(s))
    else None
  }

  lemma {:induction false} DigitsRoundTrip(n: nat)
    ensures DigitsValue(Digits(n)) == n
    decreases n
  {
    if n >= 10 {
      var d := Digits(n);
      var init := Digits(n / 10);
      assert d[..|d| - 1] == init;
      DigitsRoundTrip(n / 10);
    }
  }

  /** Rendering a number in decimal and reading it back gives the number. */
  lemma DecimalRoundTrip(n: int)
    ensures ParseDecimal(IntToDecimal(n)) == Some(n)
  {
    if n < 0 {
      var s := IntToDecimal(n);
      assert s[1..] == Digits(-n);
      DigitsRoundTrip(-n);
    } else {
      DigitsRoundTrip(n);
    }
  }

  /** A rendered number never ends in a character other than a digit. */
  lemma DecimalEndsInDigit(n: int)
    ensures |IntToDecimal(n)| > 0 && IsDigit(IntToDecimal(n)[|IntToDecimal(n)| - 1])
  {
  }

  // ---------------------------------------------------------------------------
  // String.split with a one-character, non-regex-special separator

  /** Every piece between separators, empty ones included: `s.split(sep, -1)`. */
  function SplitAll(s: string, sep: char): (pieces: seq<string>)
    ensures |pieces| > 0
    ensures forall i, j :: 0 <= i < |pieces| && 0 <= j < |pieces[i]| ==> pieces[i][j] != sep
    decreases |s|
  {
    if s == [] then [[]]
    else
      var rest := SplitAll(s[1..], sep);
      if s[0] == sep then [[]] + rest
      else [[s[0]] + rest[0]] + rest[1..]
  }

  /** The pieces glued back with the separator between them. */
  function JoinWith(pieces: seq<string>, sep: char): string
    requires |pieces| > 0
    decreases |pieces|
  {
    if |pieces| == 1 then pieces[0] else pieces[0] + [sep] + JoinWith(pieces[1..], sep)
  }

  function DropTrailingEmpty(pieces: seq<string>): (r: seq<string>)
    ensures |r| <= |pieces| && r == pieces[..|r|]
    ensures r == [] || r[|r| - 1] != []
    decreases |pieces|
  {
    if pieces == [] then []
    else if pieces[|pieces| - 1] == [] then DropTrailingEmpty(pieces[..|pieces| - 1])
    else pieces
  }

  /** `s.split(sep)` with limit 0: an input without the separator is returned whole
      (even when empty); otherwise every piece, with trailing empty pieces removed. */
  function JavaSplit(s: string, sep: char): seq<string> {
    var pieces := SplitAll(s, sep);
    if |pieces| == 1 then pieces else DropTrailingEmpty(pieces)
  }

  function Empties(n: nat): (r: seq<string>)
    ensures |r| == n && forall i :: 0 <= i < n ==> r[i] == []
  {
    seq(n, _ => [])
  }

  lemma {:induction false} SplitJoin(s: string, sep: char)
    ensures JoinWith(SplitAll(s, sep), sep) == s
    decreases |s|
  {
    if s != [] {
      var rest := SplitAll(s[1..], sep);
      SplitJoin(s[1..], sep);
      if s[0] == sep {
        assert ([[]] + rest)[1..] == rest;
      } else {
        var p := [[s[0]] + rest[0]] + rest[1..];
        if |rest| > 1 {
          assert p[1..] == rest[1..];
        }
      }
    }
  }

  lemma {:induction false} SplitAllNoSeparator(s: string, sep: char)
    requires forall j :: 0 <= j < |s| ==> s[j] != sep
    ensures SplitAll(s, sep) == [s]
    decreases |s|
  {
    if s != [] {
      SplitAllNoSeparator(s[1..], sep);
      assert [s[0]] + s[1..] == s;
    }
  }

  /** Splitting at one separator occurrence splits the two sides independently. */
  lemma {:induction false} SplitAllAt(x: string, y: string, sep: char)
    ensures SplitAll(x + [sep] + y, sep) == SplitAll(x, sep) + SplitAll(y, sep)
    decreases |x|
  {
    var s := x + [sep] + y;
    if x == [] {
      assert s[0] == sep && s[1..] == y;
    } else {
      assert s[0] == x[0] && s[1..] == x[1..] + [sep] + y;
      SplitAllAt(x[1..], y, sep);
      var restX := SplitAll(x[1..], sep);
      if x[0] != sep {
        assert SplitAll(s[1..], sep)[1..] == restX[1..] + SplitAll(y, sep);
      }
    }
  }

  lemma {:induction false} SplitAllSeparators(n: nat, sep: char)
    ensures SplitAll(Repeat([sep], n), sep) == Empties(n + 1)
    decreases n
  {
    if n > 0 {
      var s := Repeat([sep], n);
      assert s[0] == sep && s[1..] == Repeat([sep], n - 1);
      SplitAllSeparators(n - 1, sep);
    }
  }

  lemma {:induction false} DropEmptiesAfter(p: seq<string>, n: nat)
    requires p != [] && p[|p| - 1] != []
    ensures DropTrailingEmpty(p + Empties(n)) == p
    decreases n
  {
    if n > 0 {
      var q := p + Empties(n);
      assert q[..|q| - 1] == p + Empties(n - 1);
      DropEmptiesAfter(p, n - 1);
    }
  }

  lemma {:induction false} JoinAfterEmpties(p: seq<string>, n: nat, sep: char)
    requires p != []
    ensures JoinWith(p + Empties(n), sep) == JoinWith(p, sep) + Repeat([sep], n)
    decreases |p|
  {
    if |p| == 1 {
      JoinEmpties(p[0], n, sep);
    } else {
      assert (p + Empties(n))[1..] == p[1..] + Empties(n);
      JoinAfterEmpties(p[1..], n, sep);
    }
  }

  lemma {:induction false} JoinEmpties(x: string, n: nat, sep: char)
    ensures JoinWith([x] + Empties(n), sep) == x + Repeat([sep], n)
    decreases n
  {
    if n > 0 {
      assert ([x] + Empties(n))[1..] == [[]] + Empties(n - 1);
      JoinEmpties([], n - 1, sep);
      assert JoinWith([[]] + Empties(n - 1), sep) == Repeat([sep], n - 1);
    }
  }

  lemma {:induction false} DropTrailingEmptyShape(p: seq<string>)
    ensures p == DropTrailingEmpty(p) + Empties(|p| - |DropTrailingEmpty(p)|)
    decreases |p|
  {
    if p != [] && p[|p| - 1] == [] {
      var init := p[..|p| - 1];
      DropTrailingEmptyShape(init);
      var r := DropTrailingEmpty(init);
      assert p == init + [[]];
      assert Empties(|init| - |r|) + [[]] == Empties(|p| - |r|);
    }
  }

  predicate SeparatorFree(s: string, sep: char) {
    forall j :: 0 <= j < |s| ==> s[j] != sep
  }

  /** A segment splits into exactly the two pieces [k, v] when it is k, the separator,
      a non-empty v, then any number of further separators (Java drops the trailing
      empty pieces these produce). */
  lemma SplitPairOf(k: string, v: string, n: nat, sep: char)
    requires SeparatorFree(k, sep) && SeparatorFree(v, sep) && v != []
    ensures JavaSplit(k + [sep] + v + Repeat([sep], n), sep) == [k, v]
  {
    var tail := v + Repeat([sep], n);
    var s := k + [sep] + tail;
    assert k + [sep] + v + Repeat([sep], n) == s;
    SplitAllAt(k, tail, sep);
    SplitAllNoSeparator(k, sep);
    SplitAllTrailing(v, n, sep);
    assert SplitAll(s, sep) == [k, v] + Empties(n) by {
      assert [k] + ([v] + Empties(n)) == [k, v] + Empties(n);
    }
    DropEmptiesAfter([k, v], n);
  }

  /** A separator-free piece followed by n separators splits into the piece and n empty
      pieces. */
  lemma SplitAllTrailing(v: string, n: nat, sep: char)
    requires SeparatorFree(v, sep)
    ensures SplitAll(v + Repeat([sep], n), sep) == [v] + Empties(n)
  {
    SplitAllNoSeparator(v, sep);
    if n == 0 {
      assert v + Repeat([sep], 0) == v;
    } else {
      assert v + Repeat([sep], n) == v + [sep] + Repeat([sep], n - 1);
      SplitAllAt(v, Repeat([sep], n - 1), sep);
      SplitAllSeparators(n - 1, sep);
      assert [v] + Empties(n) == [v] + Empties(n - 1 + 1);
    }
  }

  /** Conversely, every segment that splits into exactly two pieces has that shape. */
  lemma SplitPairShape(s: string, sep: char)
    requires |JavaSplit(s, sep)| == 2
    ensures var p := JavaSplit(s, sep);
      && SeparatorFree(p[0], sep) && SeparatorFree(p[1], sep) && p[1] != []
      && |s| >= |p[0]| + 1 + |p[1]|
      && s == p[0] + [sep] + p[1] + Repeat([sep], |s| - |p[0]| - 1 - |p[1]|)
  {
    var pieces := SplitAll(s, sep);
    var p := JavaSplit(s, sep);
    assert |pieces| != 1;
    assert p == DropTrailingEmpty(pieces);
    DropTrailingEmptyShape(pieces);
    var n := |pieces| - 2;
    var k, v := p[0], p[1];
    assert pieces == [k, v] + Empties(n);
    assert SeparatorFree(k, sep) && SeparatorFree(v, sep) by {
      assert k == pieces[0] && v == pieces[1];
    }
    SplitJoin(s, sep);
    JoinAfterEmpties([k, v], n, sep);
    assert JoinWith([k, v], sep) == k + [sep] + v by {
      assert [k, v][1..] == [v];
    }
    assert s == k + [sep] + v + Repeat([sep], n);
  }
}
