/**
 * The fragment of Python's `re.match` that the command handlers use: a pattern is a
 * sequence of literal words and one-or-more runs of a character class (`\s+`, `\d+`,
 * `\w+`), some of them capture groups. `re.match` anchors the pattern at the start of the
 * text and not at its end.
 *
 * `MatchStart` is the greedy scan: each run takes as many characters as it can and never
 * gives any back. `Accepts` is the regex meaning, which may choose any run length. The two
 * agree on every pattern whose adjacent parts cannot overlap (`Separated`), which holds of
 * both patterns the handlers use; so no backtracking is ever needed.
 */
module Pattern {
  import opened Wrappers
  import opened Text

  datatype CharClass = Space | Digit | Word

  predicate InClass(c: char, k: CharClass) {
    match k
    case Space => IsSpace(c)
    case Digit => IsDigit(c)
    case Word => IsWordChar(c)
  }

  /** `Lit("вручить")` is a literal word; `Plus(Digit, true)` is `(\d+)`. */
  datatype Atom = Lit(word: string) | Plus(cls: CharClass, group: bool)

  /** A successful match: the captured groups in order and where the match ends. */
  datatype Captures = Captures(groups: seq<string>, end: nat)

  /** Character equality under the `re.IGNORECASE` flag or without it. */
  predicate SameChar(a: char, b: char, ignoreCase: bool) {
    if ignoreCase then Lower(a) == Lower(b) else a == b
  }

  predicate LitAt(s: string, w: string, ignoreCase: bool) {
    |w| <= |s| && forall i :: 0 <= i < |w| ==> SameChar(s[i], w[i], ignoreCase)
  }

  /** The first `n` characters of `s` all belong to `k`. */
  predicate RunOf(s: string, n: nat, k: CharClass) {
    n <= |s| && forall i :: 0 <= i < n ==> InClass(s[i], k)
  }

  /** The length of the longest prefix of `s` inside class `k`. */
  function Span(s: string, k: CharClass): (n: nat)
    ensures RunOf(s, n, k)
    ensures n == |s| || !InClass(s[n], k)
    decreases |s|
  {
    if s != [] && InClass(s[0], k) then 1 + Span(s[1..], k) else 0
  }

  /** A run of length `n` lies inside the longest run. */
  lemma {:induction false} SpanCovers(s: string, n: nat, k: CharClass)
    requires RunOf(s, n, k)
    ensures n <= Span(s, k)
    decreases |s|
  {
    if n > 0 {
      assert RunOf(s[1..], n - 1, k) by {
        forall i | 0 <= i < n - 1 ensures InClass(s[1..][i], k) { assert s[1..][i] == s[i + 1]; }
      }
      SpanCovers(s[1..], n - 1, k);
    }
  }

  /** The classes of the capture groups, in order. */
  function GroupClasses(pat: seq<Atom>): seq<CharClass>
    decreases |pat|
  {
    if pat == [] then []
    else match pat[0]
      case Lit(_) => GroupClasses(pat[1..])
      case Plus(k, g) => (if g then [k] else []) + GroupClasses(pat[1..])
  }

  function Prepend(r: Option<Captures>, consumed: nat, group: seq<string>): Option<Captures> {
    match r
    case None => None
    case Some(c) => Some(Captures(group + c.groups, consumed + c.end))
  }

  /** Each group is a non-empty run of the class of its capture group. */
  predicate GroupsFit(groups: seq<string>, classes: seq<CharClass>) {
    |groups| == |classes| && forall j :: 0 <= j < |groups| ==> groups[j] != [] && RunOf(groups[j], |groups[j]|, classes[j])
  }

  lemma GroupsFitPrepend(front: seq<string>, fc: seq<CharClass>, groups: seq<string>, classes: seq<CharClass>)
    requires GroupsFit(front, fc) && GroupsFit(groups, classes)
    ensures GroupsFit(front + groups, fc + classes)
  {
    var g, c := front + groups, fc + classes;
    forall j | 0 <= j < |g| ensures g[j] != [] && RunOf(g[j], |g[j]|, c[j]) {
      if j < |front| { assert g[j] == front[j] && c[j] == fc[j]; }
      else { assert g[j] == groups[j - |front|] && c[j] == classes[j - |front|]; }
    }
  }

  /** Greedy `re.match(pattern, s)`: `None` when there is no match. */
  function MatchStart(s: string, pat: seq<Atom>, ignoreCase: bool): (r: Option<Captures>)
    ensures r.Some? ==> r.value.end <= |s|
    decreases |pat|
  {
    if pat == [] then Some(Captures([], 0))
    else match pat[0]
      case Lit(w) =>
        if LitAt(s, w, ignoreCase) then Prepend(MatchStart(s[|w|..], pat[1..], ignoreCase), |w|, []) else None
      case Plus(k, g) =>
        var n := Span(s, k);
        if n == 0 then None else Prepend(MatchStart(s[n..], pat[1..], ignoreCase), n, if g then [s[..n]] else [])
  }

  /** Every group a match captures is a non-empty run of its group's class. */
  lemma {:induction false} MatchStartGroups(s: string, pat: seq<Atom>, ignoreCase: bool)
    requires MatchStart(s, pat, ignoreCase).Some?
    ensures GroupsFit(MatchStart(s, pat, ignoreCase).value.groups, GroupClasses(pat))
    decreases |pat|
  {
    if pat != [] {
      match pat[0]
      case Lit(w) =>
        MatchStartGroups(s[|w|..], pat[1..], ignoreCase);
        var rest := MatchStart(s[|w|..], pat[1..], ignoreCase);
        assert [] + rest.value.groups == rest.value.groups;
      case Plus(k, g) =>
        var n := Span(s, k);
        MatchStartGroups(s[n..], pat[1..], ignoreCase);
        var rest := MatchStart(s[n..], pat[1..], ignoreCase);
        var front: seq<string> := if g then [s[..n]] else [];
        var fc: seq<CharClass> := if g then [k] else [];
        assert GroupsFit(front, fc);
        GroupsFitPrepend(front, fc, rest.value.groups, GroupClasses(pat[1..]));
    }
  }

  /** The regex meaning: some choice of run lengths matches a prefix of `s`. */
  ghost predicate Accepts(s: string, pat: seq<Atom>, ignoreCase: bool)
    decreases |pat|
  {
    if pat == [] then true
    else match pat[0]
      case Lit(w) => LitAt(s, w, ignoreCase) && Accepts(s[|w|..], pat[1..], ignoreCase)
      case Plus(k, _) => exists n: nat :: 1 <= n && RunOf(s, n, k) && Accepts(s[n..], pat[1..], ignoreCase)
  }

  /** Could `a` match starting with the character `c`? */
  predicate CanStartWith(a: Atom, c: char, ignoreCase: bool) {
    match a
    case Lit(w) => w != [] && SameChar(c, w[0], ignoreCase)
    case Plus(k, _) => InClass(c, k)
  }

  /** No literal is empty, and no run of a class is followed by a part that could begin inside it. */
  ghost predicate Separated(pat: seq<Atom>, ignoreCase: bool) {
    && (forall i :: 0 <= i < |pat| && pat[i].Lit? ==> pat[i].word != [])
    && (forall i, c :: 0 <= i < |pat| - 1 && pat[i].Plus? && InClass(c, pat[i].cls) ==> !CanStartWith(pat[i + 1], c, ignoreCase))
  }

  lemma SeparatedTail(pat: seq<Atom>, ignoreCase: bool)
    requires pat != [] && Separated(pat, ignoreCase)
    ensures Separated(pat[1..], ignoreCase)
  {
    var t := pat[1..];
    forall i, c | 0 <= i < |t| - 1 && t[i].Plus? && InClass(c, t[i].cls)
      ensures !CanStartWith(t[i + 1], c, ignoreCase)
    {
      assert t[i] == pat[i + 1] && t[i + 1] == pat[i + 2];
    }
  }

  /** A non-empty separated pattern consumes at least one character, beginning with what its first part allows. */
  lemma AcceptsFirst(s: string, pat: seq<Atom>, ignoreCase: bool)
    requires pat != [] && Separated(pat, ignoreCase) && Accepts(s, pat, ignoreCase)
    ensures s != [] && CanStartWith(pat[0], s[0], ignoreCase)
  {
  }

  /** Whatever the greedy scan finds is a regex match. */
  lemma {:induction false} MatchStartSound(s: string, pat: seq<Atom>, ignoreCase: bool)
    requires MatchStart(s, pat, ignoreCase).Some?
    ensures Accepts(s, pat, ignoreCase)
    decreases |pat|
  {
    if pat != [] {
      match pat[0]
      case Lit(w) =>
        MatchStartSound(s[|w|..], pat[1..], ignoreCase);
      case Plus(k, _) =>
        var n := Span(s, k);
        MatchStartSound(s[n..], pat[1..], ignoreCase);
    }
  }

  /** On a separated pattern the greedy scan misses no regex match. */
  lemma {:induction false} MatchStartComplete(s: string, pat: seq<Atom>, ignoreCase: bool)
    requires Separated(pat, ignoreCase) && Accepts(s, pat, ignoreCase)
    ensures MatchStart(s, pat, ignoreCase).Some?
    decreases |pat|
  {
    if pat != [] {
      SeparatedTail(pat, ignoreCase);
      match pat[0]
      case Lit(w) =>
        MatchStartComplete(s[|w|..], pat[1..], ignoreCase);
      case Plus(k, _) =>
        var n: nat :| 1 <= n && RunOf(s, n, k) && Accepts(s[n..], pat[1..], ignoreCase);
        var m := Span(s, k);
        SpanCovers(s, n, k);
        if pat[1..] != [] {
          AcceptsFirst(s[n..], pat[1..], ignoreCase);
          assert s[n..][0] == s[n] && pat[1..][0] == pat[1];
          assert !InClass(s[n], k);
          assert m == n;
        } else {
          assert Accepts(s[m..], pat[1..], ignoreCase);
        }
        MatchStartComplete(s[m..], pat[1..], ignoreCase);
    }
  }

  /** A greedy match and a regex match exist for exactly the same texts. */
  lemma MatchStartIsRegexMatch(s: string, pat: seq<Atom>, ignoreCase: bool)
    requires Separated(pat, ignoreCase)
    ensures MatchStart(s, pat, ignoreCase).Some? <==> Accepts(s, pat, ignoreCase)
  {
    if MatchStart(s, pat, ignoreCase).Some? { MatchStartSound(s, pat, ignoreCase); }
    if Accepts(s, pat, ignoreCase) { MatchStartComplete(s, pat, ignoreCase); }
  }

  /** The last part of `pat` is a run that `c` could continue. */
  predicate ExtendsLast(pat: seq<Atom>, c: char) {
    pat != [] && pat[|pat| - 1].Plus? && InClass(c, pat[|pat| - 1].cls)
  }

  lemma SpanAppend(s: string, t: string, k: CharClass)
    requires Span(s, k) < |s| || t == [] || !InClass(t[0], k)
    ensures Span(s + t, k) == Span(s, k)
  {
    var n := Span(s, k);
    assert RunOf(s + t, n, k) by {
      forall i | 0 <= i < n ensures InClass((s + t)[i], k) { assert (s + t)[i] == s[i]; }
    }
    SpanCovers(s + t, n, k);
    if n < |s + t| {
      assert (s + t)[n] == if n < |s| then s[n] else t[0];
    }
  }

  /**
   * The pattern is anchored at the start only: once a match is found, text appended after
   * it changes nothing, unless it could continue the final run the match ended with.
   */
  lemma {:induction false} MatchStartIgnoresTail(s: string, t: string, pat: seq<Atom>, ignoreCase: bool)
    requires Separated(pat, ignoreCase) && MatchStart(s, pat, ignoreCase).Some?
    requires t == [] || MatchStart(s, pat, ignoreCase).value.end < |s| || !ExtendsLast(pat, t[0])
    ensures MatchStart(s + t, pat, ignoreCase) == MatchStart(s, pat, ignoreCase)
    decreases |pat|, 1
  {
    if pat != [] {
      if pat[0].Lit? {
        IgnoresTailLit(s, t, pat, ignoreCase);
      } else {
        IgnoresTailPlus(s, t, pat, ignoreCase);
      }
    }
  }

  lemma {:induction false} IgnoresTailLit(s: string, t: string, pat: seq<Atom>, ignoreCase: bool)
    requires Separated(pat, ignoreCase) && MatchStart(s, pat, ignoreCase).Some?
    requires t == [] || MatchStart(s, pat, ignoreCase).value.end < |s| || !ExtendsLast(pat, t[0])
    requires pat != [] && pat[0].Lit?
    ensures MatchStart(s + t, pat, ignoreCase) == MatchStart(s, pat, ignoreCase)
    decreases |pat|, 0
  {
    SeparatedTail(pat, ignoreCase);
    var w, tail := pat[0].word, pat[1..];
    assert |pat| > 1 ==> tail[|tail| - 1] == pat[|pat| - 1];
    assert (s + t)[|w|..] == s[|w|..] + t;
    assert LitAt(s + t, w, ignoreCase) by {
      forall i | 0 <= i < |w| ensures (s + t)[i] == s[i] { }
    }
    if tail != [] {
      MatchStartIgnoresTail(s[|w|..], t, tail, ignoreCase);
    }
  }

  lemma {:induction false} IgnoresTailPlus(s: string, t: string, pat: seq<Atom>, ignoreCase: bool)
    requires Separated(pat, ignoreCase) && MatchStart(s, pat, ignoreCase).Some?
    requires t == [] || MatchStart(s, pat, ignoreCase).value.end < |s| || !ExtendsLast(pat, t[0])
    requires pat != [] && pat[0].Plus?
    ensures MatchStart(s + t, pat, ignoreCase) == MatchStart(s, pat, ignoreCase)
    decreases |pat|, 0
  {
    var k, tail := pat[0].cls, pat[1..];
    var n := Span(s, k);
    assert n > 0 && MatchStart(s[n..], tail, ignoreCase).Some?
        && MatchStart(s, pat, ignoreCase).value.end == n + MatchStart(s[n..], tail, ignoreCase).value.end by {
      UnfoldPlus(s, pat, ignoreCase);
    }
    assert n < |s| || t == [] || !InClass(t[0], k) by {
      if tail == [] {
        assert pat[|pat| - 1] == pat[0];
      } else {
        SeparatedTail(pat, ignoreCase);
        MatchStartSound(s[n..], tail, ignoreCase);
        AcceptsFirst(s[n..], tail, ignoreCase);
      }
    }
    SpanAppend(s, t, k);
    if tail != [] {
      assert Separated(tail, ignoreCase) by {
        SeparatedTail(pat, ignoreCase);
      }
      assert t == [] || MatchStart(s[n..], tail, ignoreCase).value.end < |s[n..]| || !ExtendsLast(tail, t[0]) by {
        assert tail[|tail| - 1] == pat[|pat| - 1];
      }
      MatchStartIgnoresTail(s[n..], t, tail, ignoreCase);
    }
    PlusSameRest(s, t, pat, ignoreCase, n);
  }

  /** A leading run that stops at the same place, followed by the same match of the rest. */
  lemma PlusSameRest(s: string, t: string, pat: seq<Atom>, ignoreCase: bool, n: nat)
    requires pat != [] && pat[0].Plus? && n == Span(s, pat[0].cls) && Span(s + t, pat[0].cls) == n
    requires MatchStart(s[n..] + t, pat[1..], ignoreCase) == MatchStart(s[n..], pat[1..], ignoreCase)
    ensures MatchStart(s + t, pat, ignoreCase) == MatchStart(s, pat, ignoreCase)
  {
    UnfoldPlus(s, pat, ignoreCase);
    UnfoldPlus(s + t, pat, ignoreCase);
    SlicesOfAppend(s, t, n);
  }

  lemma SlicesOfAppend(s: string, t: string, n: nat)
    requires n <= |s|
    ensures (s + t)[n..] == s[n..] + t && (s + t)[..n] == s[..n]
  {
  }

  lemma UnfoldPlus(s: string, pat: seq<Atom>, ignoreCase: bool)
    requires pat != [] && pat[0].Plus?
    ensures var n := Span(s, pat[0].cls);
      MatchStart(s, pat, ignoreCase) ==
        if n == 0 then None
        else Prepend(MatchStart(s[n..], pat[1..], ignoreCase), n, if pat[0].group then [s[..n]] else [])
  {
  }

  lemma UnfoldLit(s: string, pat: seq<Atom>, ignoreCase: bool)
    requires pat != [] && pat[0].Lit?
    ensures MatchStart(s, pat, ignoreCase) ==
      if LitAt(s, pat[0].word, ignoreCase) then Prepend(MatchStart(s[|pat[0].word|..], pat[1..], ignoreCase), |pat[0].word|, [])
      else None
  {
  }

  /** A literal at the head of a pattern consumes exactly itself. */
  lemma MatchLitStep(s: string, w: string, rest: seq<Atom>, ignoreCase: bool)
    requires LitAt(s, w, ignoreCase)
    ensures MatchStart(s, [Lit(w)] + rest, ignoreCase) == Prepend(MatchStart(s[|w|..], rest, ignoreCase), |w|, [])
  {
    UnfoldLit(s, [Lit(w)] + rest, ignoreCase);
    assert ([Lit(w)] + rest)[1..] == rest;
  }

  /** A literal followed by a pattern that matches the rest: the captures of the rest, shifted. */
  lemma LitThen(s: string, w: string, rest: seq<Atom>, ignoreCase: bool, c: Captures)
    requires LitAt(s, w, ignoreCase) && MatchStart(s[|w|..], rest, ignoreCase) == Some(c)
    ensures MatchStart(s, [Lit(w)] + rest, ignoreCase) == Some(Captures(c.groups, |w| + c.end))
  {
    MatchLitStep(s, w, rest, ignoreCase);
    assert [] + c.groups == c.groups;
  }

  /** A whole run followed by a pattern that matches what comes after it. */
  lemma PlusThen(x: string, y: string, k: CharClass, g: bool, rest: seq<Atom>, ignoreCase: bool, c: Captures)
    requires x != [] && RunOf(x, |x|, k) && (y == [] || !InClass(y[0], k))
    requires MatchStart(y, rest, ignoreCase) == Some(c)
    ensures MatchStart(x + y, [Plus(k, g)] + rest, ignoreCase)
         == Some(Captures((if g then [x] else []) + c.groups, |x| + c.end))
  {
    MatchPlusStep(x, y, k, g, rest, ignoreCase);
  }

  /** A run at the head of a pattern consumes the whole run of `x` when `y` cannot continue it. */
  lemma MatchPlusStep(x: string, y: string, k: CharClass, g: bool, rest: seq<Atom>, ignoreCase: bool)
    requires x != [] && RunOf(x, |x|, k) && (y == [] || !InClass(y[0], k))
    ensures MatchStart(x + y, [Plus(k, g)] + rest, ignoreCase)
         == Prepend(MatchStart(y, rest, ignoreCase), |x|, if g then [x] else [])
  {
    SpanCovers(x + y, |x|, k) by {
      forall i | 0 <= i < |x| ensures InClass((x + y)[i], k) { assert (x + y)[i] == x[i]; }
    }
    if y != [] {
      assert (x + y)[|x|] == y[0];
    }
    assert Span(x + y, k) == |x|;
    UnfoldPlus(x + y, [Plus(k, g)] + rest, ignoreCase);
    assert ([Plus(k, g)] + rest)[1..] == rest;
    assert (x + y)[|x|..] == y && (x + y)[..|x|] == x;
  }

  /** Each captured group lower-cased. */
  function LowerEach(groups: seq<string>): (r: seq<string>)
    ensures |r| == |groups|
    ensures forall j :: 0 <= j < |groups| ==> r[j] == LowerAll(groups[j])
  {
    seq(|groups|, j requires 0 <= j < |groups| => LowerAll(groups[j]))
  }

  /** A match with its captured groups lower-cased. */
  function LowerCaptures(r: Option<Captures>): Option<Captures> {
    match r
    case None => None
    case Some(c) => Some(Captures(LowerEach(c.groups), c.end))
  }

  lemma LowerPrepend(r: Option<Captures>, consumed: nat, group: seq<string>)
    ensures LowerCaptures(Prepend(r, consumed, group)) == Prepend(LowerCaptures(r), consumed, LowerEach(group))
  {
    if r.Some? {
      assert LowerEach(group + r.value.groups) == LowerEach(group) + LowerEach(r.value.groups);
    }
  }

  /** Lower-casing keeps a character inside or outside each class. */
  lemma LowerKeepsClass(c: char, k: CharClass)
    ensures InClass(Lower(c), k) <==> InClass(c, k)
  {
  }

  lemma {:induction false} SpanLower(s: string, k: CharClass)
    ensures Span(LowerAll(s), k) == Span(s, k)
    decreases |s|
  {
    if s != [] {
      LowerAllSlices(s, 1);
      assert InClass(LowerAll(s)[0], k) <==> InClass(s[0], k) by {
        LowerKeepsClass(s[0], k);
      }
      SpanLower(s[1..], k);
    }
  }

  lemma LitAtLower(s: string, w: string)
    ensures LitAt(LowerAll(s), w, true) <==> LitAt(s, w, true)
  {
    forall i | 0 <= i < |w| && i < |s|
      ensures SameChar(LowerAll(s)[i], w[i], true) <==> SameChar(s[i], w[i], true)
    {
      LowerIdempotent(s[i]);
    }
  }

  /**
   * Under `re.IGNORECASE` the case of the text changes nothing but the case of what the
   * groups capture: matching the lower-cased text gives the same match, groups lower-cased.
   */
  lemma {:induction false} MatchStartLower(s: string, pat: seq<Atom>)
    ensures MatchStart(LowerAll(s), pat, true) == LowerCaptures(MatchStart(s, pat, true))
    decreases |pat|
  {
    if pat == [] {
      assert LowerEach([]) == [];
    } else {
      match pat[0]
      case Lit(w) =>
        LitAtLower(s, w);
        if LitAt(s, w, true) {
          LowerAllSlices(s, |w|);
          MatchStartLower(s[|w|..], pat[1..]);
          LowerPrepend(MatchStart(s[|w|..], pat[1..], true), |w|, []);
          assert LowerEach([]) == [];
        }
      case Plus(k, g) =>
        SpanLower(s, k);
        var n := Span(s, k);
        if n > 0 {
          LowerAllSlices(s, n);
          MatchStartLower(s[n..], pat[1..]);
          var front: seq<string> := if g then [s[..n]] else [];
          LowerPrepend(MatchStart(s[n..], pat[1..], true), n, front);
          assert LowerEach(front) == if g then [LowerAll(s)[..n]] else [];
        }
    }
  }
}
