/**
 * Characters and strings as the bot's Python code sees them: the whitespace that
 * `str.strip()` and the regex class `\s` remove or match, the decimal digits of `\d`,
 * the word characters of `\w`, and the lower-casing of `str.lower()`.
 *
 * The character classes are a fixed, finite approximation of Python's Unicode tables:
 * the ASCII whitespace of `str.isspace()` (including the separators U+001C..U+001F), ASCII
 * digits, and ASCII and Cyrillic letters. Lower-casing covers A..Z, А..Я and Ѐ..Џ only;
 * other Cyrillic capitals, such as Ѣ (U+0462), are left as they are. The proofs use that
 * the classes are disjoint where a pattern needs them to be, that lower-casing keeps every
 * class and is idempotent, and that it fixes the command words, `@`, spaces and digits.
 */
module Text {

  predicate IsSpace(c: char) {
    c == ' ' || c == '\t' || c == '\n' || c == '\r' || c == '\U{B}' || c == '\U{C}' || '\U{1C}' <= c <= '\U{1F}'
  }

  predicate IsDigit(c: char) {
    '0' <= c <= '9'
  }

  predicate IsLetter(c: char) {
    || 'a' <= c <= 'z'
    || 'A' <= c <= 'Z'
    || '\U{400}' <= c <= '\U{481}'
    || '\U{48A}' <= c <= '\U{4FF}'
  }

  predicate IsWordChar(c: char) {
    IsLetter(c) || IsDigit(c) || c == '_'
  }

  /** The blank that SQL's one-argument TRIM removes: the space character only. */
  predicate IsBlank(c: char) {
    c == ' '
  }

  /** Lower-casing of one character: ASCII capitals, Cyrillic А..Я and Ѐ..Џ. */
  function Lower(c: char): (r: char)
    ensures IsSpace(r) <==> IsSpace(c)
    ensures IsDigit(r) <==> IsDigit(c)
    ensures IsLetter(c) <==> IsLetter(r)
    ensures r == c || IsLetter(c)
  {
    if 'A' <= c <= 'Z' then (c as int + 32) as char
    else if '\U{410}' <= c <= '\U{42F}' then (c as int + 32) as char
    else if '\U{400}' <= c <= '\U{40F}' then (c as int + 80) as char
    else c
  }

  lemma LowerIdempotent(c: char)
    ensures Lower(Lower(c)) == Lower(c)
  {
  }

  /** `str.lower()`: character by character. */
  function LowerAll(s: string): (r: string)
    ensures |r| == |s|
    ensures forall i :: 0 <= i < |s| ==> r[i] == Lower(s[i])
  {
    seq(|s|, i requires 0 <= i < |s| => Lower(s[i]))
  }

  lemma LowerAllAppend(a: string, b: string)
    ensures LowerAll(a + b) == LowerAll(a) + LowerAll(b)
  {
  }

  /** Lower-casing a lower-cased string changes nothing. */
  lemma LowerAllIdempotent(s: string)
    ensures LowerAll(LowerAll(s)) == LowerAll(s)
  {
    forall i | 0 <= i < |s| ensures LowerAll(LowerAll(s))[i] == LowerAll(s)[i] {
      LowerIdempotent(s[i]);
    }
  }

  lemma LowerAllSlices(s: string, n: nat)
    requires n <= |s|
    ensures LowerAll(s)[n..] == LowerAll(s[n..]) && LowerAll(s)[..n] == LowerAll(s[..n])
  {
  }

  predicate StartsWith(s: string, prefix: string) {
    |prefix| <= |s| && s[..|prefix|] == prefix
  }

  predicate All(s: string, p: char -> bool) {
    forall i :: 0 <= i < |s| ==> p(s[i])
  }

  /** Drops the leading characters that satisfy `p`. */
  function TrimStart(s: string, p: char -> bool): string
    decreases |s|
  {
    if s != [] && p(s[0]) then TrimStart(s[1..], p) else s
  }

  /** What `TrimStart` keeps: a suffix of `s` not starting with `p`, after a prefix all in `p`. */
  lemma {:induction false} TrimStartShape(s: string, p: char -> bool)
    ensures var r := TrimStart(s, p);
      && |r| <= |s| && r == s[|s| - |r|..]
      && All(s[..|s| - |r|], p)
      && (r == [] || !p(r[0]))
    decreases |s|
  {
    if s != [] && p(s[0]) {
      TrimStartShape(s[1..], p);
      var r := TrimStart(s, p);
      assert s[1..][|s| - 1 - |r|..] == s[|s| - |r|..];
      forall i | 0 <= i < |s| - |r| ensures p(s[i]) {
        if i > 0 { assert s[i] == s[1..][..|s| - 1 - |r|][i - 1]; }
      }
    }
  }

  /** Drops the trailing characters that satisfy `p`. */
  function TrimEnd(s: string, p: char -> bool): string
    decreases |s|
  {
    if s != [] && p(s[|s| - 1]) then TrimEnd(s[..|s| - 1], p) else s
  }

  /** What `TrimEnd` keeps: a prefix of `s` not ending with `p`, before a suffix all in `p`. */
  lemma {:induction false} TrimEndShape(s: string, p: char -> bool)
    ensures var r := TrimEnd(s, p);
      && |r| <= |s| && r == s[..|r|]
      && All(s[|r|..], p)
      && (r == [] || !p(r[|r| - 1]))
    decreases |s|
  {
    if s != [] && p(s[|s| - 1]) {
      var u := s[..|s| - 1];
      TrimEndShape(u, p);
      var r := TrimEnd(s, p);
      assert u[..|r|] == s[..|r|];
      forall i | |r| <= i < |s| ensures p(s[i]) {
        if i < |s| - 1 { assert s[i] == u[|r|..][i - |r|]; }
      }
    }
  }

  /** Drops leading and trailing characters that satisfy `p`. */
  function Trim(s: string, p: char -> bool): string {
    TrimEnd(TrimStart(s, p), p)
  }

  /**
   * What `Trim` keeps: a slice of `s` that neither starts nor ends with a character
   * satisfying `p`, everything cut off on either side satisfying `p`.
   */
  lemma TrimShape(s: string, p: char -> bool)
    ensures var r := Trim(s, p);
      && (exists i :: 0 <= i <= |s| - |r| && r == s[i..i + |r|] && All(s[..i], p) && All(s[i + |r|..], p))
      && (r == [] || (!p(r[0]) && !p(r[|r| - 1])))
  {
    var t := TrimStart(s, p);
    var r := TrimEnd(t, p);
    TrimStartShape(s, p);
    TrimEndShape(t, p);
    var i := |s| - |t|;
    assert r == s[i..i + |r|];
    assert s[i + |r|..] == t[|r|..];
  }

  /** Python's `str.strip()`. */
  function Strip(s: string): string {
    Trim(s, IsSpace)
  }

  lemma {:induction false} TrimStartLower(s: string)
    ensures TrimStart(LowerAll(s), IsSpace) == LowerAll(TrimStart(s, IsSpace))
    decreases |s|
  {
    if s == [] {
      assert LowerAll(s) == [];
    } else {
      LowerAllSlices(s, 1);
      assert LowerAll(s)[0] == Lower(s[0]);
      if IsSpace(s[0]) {
        TrimStartLower(s[1..]);
      }
    }
  }

  lemma {:induction false} TrimEndLower(s: string)
    ensures TrimEnd(LowerAll(s), IsSpace) == LowerAll(TrimEnd(s, IsSpace))
    decreases |s|
  {
    if s == [] {
      assert LowerAll(s) == [];
    } else {
      LowerAllSlices(s, |s| - 1);
      assert LowerAll(s)[|s| - 1] == Lower(s[|s| - 1]);
      if IsSpace(s[|s| - 1]) {
        TrimEndLower(s[..|s| - 1]);
      }
    }
  }

  /** Stripping and lower-casing can be done in either order, since lower-casing keeps whitespace. */
  lemma StripLower(s: string)
    ensures Strip(LowerAll(s)) == LowerAll(Strip(s))
  {
    TrimStartLower(s);
    TrimEndLower(TrimStart(s, IsSpace));
  }

  /** SQL's `TRIM(x)`, which removes spaces only. */
  function SqlTrim(s: string): string {
    Trim(s, IsBlank)
  }

  lemma {:induction false} TrimStartSkips(a: string, t: string, p: char -> bool)
    requires All(a, p)
    ensures TrimStart(a + t, p) == TrimStart(t, p)
    decreases |a|
  {
    if a != [] {
      assert (a + t)[0] == a[0] && p(a[0]);
      assert (a + t)[1..] == a[1..] + t;
      TrimStartSkips(a[1..], t, p);
    } else {
      assert a + t == t;
    }
  }

  lemma {:induction false} TrimEndSkips(t: string, b: string, p: char -> bool)
    requires All(b, p)
    ensures TrimEnd(t + b, p) == TrimEnd(t, p)
    decreases |b|
  {
    if b != [] {
      assert (t + b)[|t + b| - 1] == b[|b| - 1] && p(b[|b| - 1]);
      assert (t + b)[..|t + b| - 1] == t + b[..|b| - 1];
      TrimEndSkips(t, b[..|b| - 1], p);
    } else {
      assert t + b == t;
    }
  }

  lemma {:induction false} TrimStartAppend(t: string, b: string, p: char -> bool)
    ensures TrimStart(t + b, p) == if TrimStart(t, p) == [] then TrimStart(b, p) else TrimStart(t, p) + b
    decreases |t|
  {
    if t == [] {
      assert t + b == b;
    } else if p(t[0]) {
      assert (t + b)[1..] == t[1..] + b;
      TrimStartAppend(t[1..], b, p);
    }
  }

  /** Surrounding characters that satisfy `p` do not change what `Trim` keeps. */
  lemma TrimIgnoresSurrounding(a: string, t: string, b: string, p: char -> bool)
    requires All(a, p) && All(b, p)
    ensures Trim(a + t + b, p) == Trim(t, p)
  {
    assert a + t + b == a + (t + b);
    TrimStartSkips(a, t + b, p);
    TrimStartAppend(t, b, p);
    if TrimStart(t, p) == [] {
      TrimStartSkips(b, [], p);
      assert b + [] == b;
    } else {
      TrimEndSkips(TrimStart(t, p), b, p);
    }
  }

  /** A string that neither starts nor ends with a trimmed character is its own trim. */
  lemma TrimKeepsTight(s: string, p: char -> bool)
    requires s == [] || (!p(s[0]) && !p(s[|s| - 1]))
    ensures Trim(s, p) == s
  {
    assert TrimStart(s, p) == s;
  }

  /** Trimming leaves nothing exactly when every character is trimmed. */
  lemma TrimEmptyIff(s: string, p: char -> bool)
    ensures Trim(s, p) == [] <==> All(s, p)
  {
    var r := Trim(s, p);
    TrimShape(s, p);
    if r == [] {
      var i :| 0 <= i <= |s| && All(s[..i], p) && All(s[i..], p);
      forall k | 0 <= k < |s| ensures p(s[k]) {
        if k < i { assert s[..i][k] == s[k]; } else { assert s[i..][k - i] == s[k]; }
      }
    }
  }

  function DigitValue(c: char): (d: nat)
    requires IsDigit(c)
    ensures d < 10
  {
    c as int - '0' as int
  }

  function DigitChar(d: nat): (c: char)
    requires d < 10
    ensures IsDigit(c) && DigitValue(c) == d
  {
    ('0' as int + d) as char
  }

  /** Python's `int(s)` on a run of decimal digits (leading zeros allowed). */
  function DigitsValue(s: string): nat
    requires All(s, IsDigit)
    decreases |s|
  {
    if s == [] then 0 else DigitsValue(s[..|s| - 1]) * 10 + DigitValue(s[|s| - 1])
  }

  /** `int()` ignores leading zeros. */
  lemma {:induction false} LeadingZeroIgnored(s: string)
    requires All(s, IsDigit)
    ensures All("0" + s, IsDigit) && DigitsValue("0" + s) == DigitsValue(s)
    decreases |s|
  {
    if s != [] {
      var init := s[..|s| - 1];
      assert ("0" + s)[..|"0" + s| - 1] == "0" + init;
      assert All(init, IsDigit) by { assert forall i :: 0 <= i < |init| ==> init[i] == s[i]; }
      LeadingZeroIgnored(init);
    }
  }

  /** A run of digits has the value 0 exactly when every digit is `0`. */
  lemma {:induction false} DigitsZeroIff(s: string)
    requires All(s, IsDigit)
    ensures DigitsValue(s) == 0 <==> forall i :: 0 <= i < |s| ==> s[i] == '0'
    decreases |s|
  {
    if s != [] {
      var init := s[..|s| - 1];
      assert All(init, IsDigit) by { assert forall i :: 0 <= i < |init| ==> init[i] == s[i]; }
      DigitsZeroIff(init);
      assert forall i :: 0 <= i < |init| ==> init[i] == s[i];
    }
  }

  /** Decimal rendering of a natural number, as `str(n)` or an f-string prints it. */
  function NatToString(n: nat): (r: string)
    ensures r != [] && All(r, IsDigit)
    ensures DigitsValue(r) == n
    ensures r[0] == '0' ==> n == 0
    decreases n
  {
    if n < 10 then [DigitChar(n)]
    else
      var r := NatToString(n / 10) + [DigitChar(n % 10)];
      assert r[..|r| - 1] == NatToString(n / 10);
      r
  }

  function IntToString(i: int): string {
    if i < 0 then "-" + NatToString(-i) else NatToString(i)
  }

  /** The pieces of a formatted string, joined with nothing between them. */
  function Concat(parts: seq<string>): string
    decreases |parts|
  {
    if parts == [] then "" else parts[0] + Concat(parts[1..])
  }
}
