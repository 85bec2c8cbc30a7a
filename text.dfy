/**
 * String helpers with Python's meaning: `str.lower`, `str.strip`,
 * `str.startswith`, substring `in`, `str.split`, `str.join`, decimal
 * rendering of integers and parsing of digit strings.  Only ASCII letters
 * change case.
 */
module Text {
  import Wrappers

  predicate IsDigit(c: char) { '0' <= c <= '9' }

  /** `c.isspace()`: the characters Python's `str.strip()` removes by default. */
  predicate IsWhitespace(c: char)
  {
    '\t' <= c <= '\r' || '\U{001C}' <= c <= ' ' || c == '\U{0085}' || c == '\U{00A0}'
    || c == '\U{1680}' || '\U{2000}' <= c <= '\U{200A}' || c == '\U{2028}' || c == '\U{2029}'
    || c == '\U{202F}' || c == '\U{205F}' || c == '\U{3000}'
  }

  function LowerChar(c: char): char
  {
    if 'A' <= c <= 'Z' then (c as int + 32) as char else c
  }

  function UpperChar(c: char): char
  {
    if 'a' <= c <= 'z' then (c as int - 32) as char else c
  }

  /** `s.lower()` for ASCII letters: each character lower-cased, the length unchanged. */
  function Lower(s: string): (r: string)
    ensures |r| == |s|
  {
    if s == [] then [] else [LowerChar(s[0])] + Lower(s[1..])
  }

  lemma {:induction false} LowerAt(s: string)
    ensures forall i :: 0 <= i < |s| ==> Lower(s)[i] == LowerChar(s[i])
  {
    if s != [] {
      LowerAt(s[1..]);
    }
  }

  /** `s.upper()`. */
  function Upper(s: string): (r: string)
    ensures |r| == |s|
    ensures forall i :: 0 <= i < |s| ==> r[i] == UpperChar(s[i])
  {
    if s == [] then [] else [UpperChar(s[0])] + Upper(s[1..])
  }

  predicate StartsWith(s: string, prefix: string)
  {
    |prefix| <= |s| && s[..|prefix|] == prefix
  }

  /** `sub` occurs in `s` starting at index `i`. */
  predicate OccursAt(s: string, sub: string, i: int)
  {
    0 <= i && i + |sub| <= |s| && s[i..i + |sub|] == sub
  }

  /** Python's `sub in s` for two strings. */
  ghost predicate Contains(s: string, sub: string)
  {
    exists i :: OccursAt(s, sub, i)
  }

  /** Executable form of `Contains`, scanning start positions from the left. */
  function ContainsFrom(s: string, sub: string, i: nat): (r: bool)
    requires i <= |s| + 1
    ensures r <==> exists j :: i <= j && OccursAt(s, sub, j)
    decreases |s| + 1 - i
  {
    if i + |sub| > |s| then false
    else if s[i..i + |sub|] == sub then
      assert OccursAt(s, sub, i);
      true
    else
      ContainsFrom(s, sub, i + 1)
  }

  function HasSubstring(s: string, sub: string): (r: bool)
    ensures r == Contains(s, sub)
  {
    ContainsFrom(s, sub, 0)
  }

  /** Leading characters satisfying `drop` removed (`str.lstrip(chars)`). */
  function LStrip(s: string, drop: char -> bool): (r: string)
    ensures |r| <= |s| && r == s[|s| - |r|..]
    ensures r != [] ==> !drop(r[0])
    ensures forall i :: 0 <= i < |s| - |r| ==> drop(s[i])
  {
    if s != [] && drop(s[0]) then LStrip(s[1..], drop) else s
  }

  /** Trailing characters satisfying `drop` removed (`str.rstrip(chars)`). */
  function RStrip(s: string, drop: char -> bool): (r: string)
    ensures |r| <= |s| && r == s[..|r|]
    ensures r != [] ==> !drop(r[|r| - 1])
    ensures forall i :: |r| <= i < |s| ==> drop(s[i])
  {
    if s != [] && drop(s[|s| - 1]) then RStrip(s[..|s| - 1], drop) else s
  }

  /** `str.strip(chars)`: both ends trimmed. */
  function StripBy(s: string, drop: char -> bool): (r: string)
    ensures r != [] ==> !drop(r[0]) && !drop(r[|r| - 1])
    ensures |r| <= |s|
  {
    RStrip(LStrip(s, drop), drop)
  }

  /** `s.strip()`: whitespace trimmed from both ends. */
  function Strip(s: string): (r: string)
    ensures r != [] ==> !IsWhitespace(r[0]) && !IsWhitespace(r[|r| - 1])
    ensures |r| <= |s|
  {
    StripBy(s, IsWhitespace)
  }

  /** True when `s.strip()` is empty, i.e. the string is blank. */
  predicate IsBlank(s: string)
  {
    forall i :: 0 <= i < |s| ==> IsWhitespace(s[i])
  }

  lemma StripEmptyIffBlank(s: string)
    ensures Strip(s) == [] <==> IsBlank(s)
  {
    var l := LStrip(s, IsWhitespace);
    if l != [] {
      assert !IsWhitespace(s[|s| - |l|]);
    }
  }

  /** `s.strip()` cuts a blank prefix and a blank suffix off `s` and keeps what lies between. */
  lemma StripIsTrim(s: string)
    ensures exists i, j :: 0 <= i <= j <= |s| && Strip(s) == s[i..j] && IsBlank(s[..i]) && IsBlank(s[j..])
  {
    var i, j := StripBounds(s);
  }

  lemma StripBounds(s: string) returns (i: nat, j: nat)
    ensures i <= j <= |s| && Strip(s) == s[i..j] && IsBlank(s[..i]) && IsBlank(s[j..])
  {
    i, j := StripStart(s, IsWhitespace), StripEnd(s, IsWhitespace);
    StripByIsSlice(s, IsWhitespace);
    StripByDropsPrefix(s, IsWhitespace);
    StripByDropsSuffix(s, IsWhitespace);
    assert forall k :: 0 <= k < i ==> s[..i][k] == s[k];
    assert forall k :: 0 <= k < |s| - j ==> s[j..][k] == s[j + k];
  }

  /** Where the part `s.strip(chars)` keeps begins and ends. */
  function StripStart(s: string, drop: char -> bool): nat
  {
    |s| - |LStrip(s, drop)|
  }

  function StripEnd(s: string, drop: char -> bool): nat
  {
    StripStart(s, drop) + |RStrip(LStrip(s, drop), drop)|
  }

  lemma StripByIsSlice(s: string, drop: char -> bool)
    ensures StripStart(s, drop) <= StripEnd(s, drop) <= |s|
    ensures StripBy(s, drop) == s[StripStart(s, drop)..StripEnd(s, drop)]
  {
    var l := LStrip(s, drop);
    var i := |s| - |l|;
    var r := RStrip(l, drop);
    assert i + |r| <= |s| && r == s[i..i + |r|] by {
      RStripSuffix(l, drop, |r|, s, i);
    }
    assert StripBy(s, drop) == r;
    assert StripStart(s, drop) == i;
    assert StripEnd(s, drop) == i + |r|;
  }

  lemma StripByDropsPrefix(s: string, drop: char -> bool)
    ensures forall k :: 0 <= k < StripStart(s, drop) ==> drop(s[k])
  {
  }

  lemma StripByDropsSuffix(s: string, drop: char -> bool)
    ensures StripEnd(s, drop) <= |s|
    ensures forall k :: StripEnd(s, drop) <= k < |s| ==> drop(s[k])
  {
    var l := LStrip(s, drop);
    var i := |s| - |l|;
    var r := RStrip(l, drop);
    assert StripEnd(s, drop) == i + |r|;
    RStripSuffix(l, drop, |r|, s, i);
  }

  /** The characters RStrip removes from `l == s[i..]` are those of `s` from `i + n` on. */
  lemma RStripSuffix(l: string, drop: char -> bool, n: nat, s: string, i: nat)
    requires i <= |s| && l == s[i..] && n == |RStrip(l, drop)|
    ensures i + n <= |s| && RStrip(l, drop) == s[i..i + n]
    ensures forall k :: i + n <= k < |s| ==> drop(s[k])
  {
    forall k | i + n <= k < |s| ensures drop(s[k]) {
      assert s[k] == l[k - i];
    }
  }

  /** Stripping twice is stripping once. */
  lemma StripIdempotent(s: string)
    ensures Strip(Strip(s)) == Strip(s)
  {
    if Strip(s) != [] {
      StripByNoop(Strip(s), IsWhitespace);
    }
  }

  /** Index of the first `sep` in `s`, if any. */
  function FindChar(s: string, sep: char): (r: int)
    ensures -1 <= r < |s|
    ensures r == -1 ==> sep !in s
    ensures r >= 0 ==> s[r] == sep && sep !in s[..r]
  {
    if s == [] then -1
    else if s[0] == sep then 0
    else var k := FindChar(s[1..], sep); if k == -1 then -1 else k + 1
  }

  /** `s.split(sep)` for a one-character separator: never empty. */
  function Split(s: string, sep: char): (parts: seq<string>)
    ensures |parts| >= 1
    ensures forall i :: 0 <= i < |parts| ==> sep !in parts[i]
    decreases |s|
  {
    var k := FindChar(s, sep);
    if k == -1 then [s] else [s[..k]] + Split(s[k + 1..], sep)
  }

  /** The first separator of `a + t` is that of `a`, or else lies in `t`. */
  lemma {:induction false} FindCharConcat(a: string, t: string, sep: char)
    ensures FindChar(a + t, sep) ==
      (if FindChar(a, sep) != -1 then FindChar(a, sep)
       else if FindChar(t, sep) == -1 then -1 else |a| + FindChar(t, sep))
  {
    if a != [] {
      assert (a + t)[1..] == a[1..] + t;
      FindCharConcat(a[1..], t, sep);
    } else {
      assert a + t == t;
    }
  }

  /** Splitting at an inserted separator splits each side on its own. */
  lemma {:induction false} SplitConcat(a: string, b: string, sep: char)
    ensures Split(a + [sep] + b, sep) == Split(a, sep) + Split(b, sep)
    decreases |a|
  {
    var s := a + [sep] + b;
    var k := FindChar(a, sep);
    FindCharConcat(a, [sep] + b, sep);
    assert s == a + ([sep] + b);
    if k == -1 {
      assert s[..|a|] == a && s[|a| + 1..] == b;
    } else {
      assert s[..k] == a[..k];
      assert s[k + 1..] == a[k + 1..] + [sep] + b;
      SplitConcat(a[k + 1..], b, sep);
    }
  }

  /** `sep.join(parts)`. */
  function Join(parts: seq<string>, sep: string): string
  {
    if parts == [] then ""
    else if |parts| == 1 then parts[0]
    else parts[0] + sep + Join(parts[1..], sep)
  }

  /** Stripping a string whose ends are kept changes nothing. */
  lemma StripByNoop(s: string, drop: char -> bool)
    requires s != [] && !drop(s[0]) && !drop(s[|s| - 1])
    ensures StripBy(s, drop) == s
  {
    assert LStrip(s, drop) == s;
  }

  /**
   * Python's `int(s)` on a decimal literal: surrounding whitespace and one
   * leading sign allowed; `None` where Python raises `ValueError`.
   */
  function ParseInt(s: string): (r: Wrappers.Option<int>)
  {
    ParseSigned(Strip(s))
  }

  /** A stripped literal: one optional sign, then digits. */
  function ParseSigned(t: string): (r: Wrappers.Option<int>)
    ensures IsDigits(t) ==> r == Wrappers.Some(DigitsValue(t) as int)
    ensures r.Some? ==> t != []
  {
    if t != [] && (t[0] == '+' || t[0] == '-') then
      if IsDigits(t[1..]) then
        var v: int := DigitsValue(t[1..]);
        Wrappers.Some(if t[0] == '-' then -v else v)
      else Wrappers.None
    else if IsDigits(t) then Wrappers.Some(DigitsValue(t) as int)
    else Wrappers.None
  }

  /** A plain digit string parses to its value. */
  lemma ParseIntOfDigits(s: string)
    requires IsDigits(s)
    ensures ParseInt(s) == Wrappers.Some(DigitsValue(s) as int)
  {
    assert !IsWhitespace(s[0]) && !IsWhitespace(s[|s| - 1]);
    StripByNoop(s, IsWhitespace);
  }

  /** Decimal digits of `n` without leading zeros (`str(n)` for `n >= 0`). */
  function NatToString(n: nat): (r: string)
    ensures |r| >= 1
    ensures forall i :: 0 <= i < |r| ==> IsDigit(r[i])
  {
    if n < 10 then [('0' as int + n) as char]
    else NatToString(n / 10) + [('0' as int + n % 10) as char]
  }

  /** `str(i)` for any integer. */
  function IntToString(i: int): string
  {
    if i < 0 then "-" + NatToString(-i) else NatToString(i)
  }

  predicate IsDigits(s: string)
  {
    |s| >= 1 && forall i :: 0 <= i < |s| ==> IsDigit(s[i])
  }

  /** The value of a digit string (`int(s)`), leading zeros allowed. */
  function DigitsValue(s: string): nat
    requires forall i :: 0 <= i < |s| ==> IsDigit(s[i])
  {
    if s == [] then 0
    else
      assert IsDigit(s[|s| - 1]);
      DigitsValue(s[..|s| - 1]) * 10 + (s[|s| - 1] as int - '0' as int)
  }

  lemma {:induction false} DigitsValueOfNatToString(n: nat)
    ensures DigitsValue(NatToString(n)) == n
  {
    if n >= 10 {
      DigitsValueOfNatToString(n / 10);
      var r := NatToString(n);
      assert r[..|r| - 1] == NatToString(n / 10);
    }
  }

  /** `int(s)` restricted to plain digit strings: `None` where Python raises. */
  function ParseNat(s: string): (r: Wrappers.Option<nat>)
    ensures r.Some? <==> IsDigits(s)
  {
    if IsDigits(s) then Wrappers.Some(DigitsValue(s)) else Wrappers.None
  }

  function Repeat(c: char, n: nat): (r: string)
    ensures |r| == n && forall i :: 0 <= i < n ==> r[i] == c
  {
    if n == 0 then [] else [c] + Repeat(c, n - 1)
  }

  /** Python's `s.title()` on ASCII: a letter is upper-cased when it starts a word, otherwise lower-cased. */
  function Title(s: string): (r: string)
    ensures |r| == |s|
  {
    TitleFrom(s, false)
  }

  predicate IsAsciiLetter(c: char) { 'a' <= c <= 'z' || 'A' <= c <= 'Z' }

  function TitleFrom(s: string, inWord: bool): (r: string)
    ensures |r| == |s|
  {
    if s == [] then []
    else
      var c := s[0];
      var out := if !IsAsciiLetter(c) then c else if inWord then LowerChar(c) else UpperChar(c);
      [out] + TitleFrom(s[1..], IsAsciiLetter(c))
  }

  /** `int(str(i)) == i`. */
  lemma ParseIntOfIntToString(i: int)
    ensures ParseInt(IntToString(i)) == Wrappers.Some(i)
  {
    var s := IntToString(i);
    var d := NatToString(if i < 0 then -i else i);
    assert !IsWhitespace(s[0]) && !IsWhitespace(s[|s| - 1]);
    StripByNoop(s, IsWhitespace);
    DigitsValueOfNatToString(if i < 0 then -i else i);
    if i < 0 {
      assert s[1..] == d;
    }
  }
}
