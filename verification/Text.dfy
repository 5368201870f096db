/** The Python string operations the source relies on, over ASCII text:
    strip, rstrip("."), split, lower, int() and decimal formatting. */
module Text {
  import opened Basics

  /** ASCII characters for which `str.isspace` holds. */
  predicate IsSpace(c: char) {
    '\t' <= c <= '\r' || '\U{1C}' <= c <= '\U{20}'
  }

  predicate NoSpaces(s: string) {
    forall i :: 0 <= i < |s| ==> !IsSpace(s[i])
  }

  /** A non-empty run without white space: what `split()` yields. */
  predicate IsToken(s: string) {
    s != [] && NoSpaces(s)
  }

  function LeftStrip(s: string): string {
    if s != [] && IsSpace(s[0]) then LeftStrip(s[1..]) else s
  }

  function RightStrip(s: string): string {
    if s != [] && IsSpace(s[|s| - 1]) then RightStrip(s[..|s| - 1]) else s
  }

  function Strip(s: string): string {
    RightStrip(LeftStrip(s))
  }

  predicate Stripped(s: string) {
    s != [] ==> !IsSpace(s[0]) && !IsSpace(s[|s| - 1])
  }

  lemma {:induction false} RightStripShape(s: string)
    ensures RightStrip(s) <= s
    ensures RightStrip(s) != [] ==> !IsSpace(RightStrip(s)[|RightStrip(s)| - 1])
  {
    if s != [] && IsSpace(s[|s| - 1]) {
      RightStripShape(s[..|s| - 1]);
    }
  }

  lemma {:induction false} LeftStripShape(s: string)
    ensures LeftStrip(s) != [] ==> !IsSpace(LeftStrip(s)[0])
    ensures |LeftStrip(s)| <= |s| && LeftStrip(s) == s[|s| - |LeftStrip(s)|..]
  {
    if s != [] && IsSpace(s[0]) {
      LeftStripShape(s[1..]);
    }
  }

  /** `strip` yields stripped text, changes only text with outer white space, and is a fixed point. */
  lemma StripFixes(s: string)
    ensures Stripped(Strip(s))
    ensures Strip(s) == s <==> Stripped(s)
  {
    LeftStripShape(s);
    RightStripShape(LeftStrip(s));
  }

  /** `strip` removes exactly the outer white space. */
  lemma {:induction false} StripIsCore(before: string, core: string, after: string)
    requires Stripped(core) && (forall c :: c in before ==> IsSpace(c)) && (forall c :: c in after ==> IsSpace(c))
    ensures Strip(before + core + after) == core
  {
    if before != [] {
      assert (before + core + after)[1..] == before[1..] + core + after;
      StripIsCore(before[1..], core, after);
    } else if after != [] {
      var s := before + core + after;
      assert s[..|s| - 1] == before + core + after[..|after| - 1];
      StripIsCore(before, core, after[..|after| - 1]);
      StripCommutes(s);
      StripCommutes(s[..|s| - 1]);
    } else {
      assert before + core + after == core;
      StripFixes(core);
    }
  }

  lemma {:induction false} RightStripAppend(prefix: string, s: string)
    ensures RightStrip(prefix + s) == if RightStrip(s) == [] then RightStrip(prefix) else prefix + RightStrip(s)
  {
    if s == [] {
      assert prefix + s == prefix;
    } else if IsSpace(s[|s| - 1]) {
      assert (prefix + s)[..|prefix + s| - 1] == prefix + s[..|s| - 1];
      RightStripAppend(prefix, s[..|s| - 1]);
    }
  }

  /** Both strips commute, so `strip` may be read in either order. */
  lemma {:induction false} StripCommutes(s: string)
    ensures LeftStrip(RightStrip(s)) == Strip(s)
  {
    if s != [] && IsSpace(s[0]) {
      StripCommutes(s[1..]);
      assert s == s[..1] + s[1..];
      RightStripAppend(s[..1], s[1..]);
      if RightStrip(s[1..]) != [] {
        assert (s[..1] + RightStrip(s[1..]))[1..] == RightStrip(s[1..]);
      } else {
        assert RightStrip(s[..1]) == [] by { assert s[..1][..0] == []; }
      }
    } else {
      RightStripShape(s);
    }
  }

  lemma {:induction false} LeftStripKeepsLast(s: string)
    requires s != [] && !IsSpace(s[|s| - 1])
    ensures LeftStrip(s) != []
  {
    if IsSpace(s[0]) {
      LeftStripKeepsLast(s[1..]);
    }
  }

  function RightStripDots(s: string): string {
    if s != [] && s[|s| - 1] == '.' then RightStripDots(s[..|s| - 1]) else s
  }

  lemma {:induction false} RightStripDotsShape(s: string)
    ensures RightStripDots(s) <= s
    ensures RightStripDots(s) != [] ==> RightStripDots(s)[|RightStripDots(s)| - 1] != '.'
  {
    if s != [] && s[|s| - 1] == '.' {
      RightStripDotsShape(s[..|s| - 1]);
    }
  }

  /** Length of the token at the front of `s`. */
  function TokenLength(s: string): (n: nat)
    ensures n <= |s| && NoSpaces(s[..n])
    ensures n < |s| ==> IsSpace(s[n])
  {
    if s == [] || IsSpace(s[0]) then 0
    else
      var m := TokenLength(s[1..]);
      assert s[..m + 1] == [s[0]] + s[1..][..m];
      m + 1
  }

  /** `s.split()`. */
  function Split(s: string): seq<string>
    decreases |s|
  {
    LeftStripShape(s);
    var t := LeftStrip(s);
    if t == [] then [] else [t[..TokenLength(t)]] + Split(t[TokenLength(t)..])
  }

  /** `s.split(None, n)`: at most `n` tokens, then the left-stripped rest when it is not empty. */
  function SplitAtMost(s: string, n: nat): seq<string>
    decreases n
  {
    var t := LeftStrip(s);
    if t == [] then []
    else if n == 0 then [t]
    else [t[..TokenLength(t)]] + SplitAtMost(t[TokenLength(t)..], n - 1)
  }

  lemma {:induction false} TokenLengthOf(a: string, rest: string)
    requires NoSpaces(a)
    requires rest != [] ==> IsSpace(rest[0])
    ensures TokenLength(a + rest) == |a|
  {
    if a == [] {
      assert a + rest == rest;
    } else {
      assert (a + rest)[1..] == a[1..] + rest;
      TokenLengthOf(a[1..], rest);
    }
  }

  lemma SplitOne(a: string)
    requires IsToken(a)
    ensures Split(a) == [a]
  {
    TokenLengthOf(a, []);
    assert a + [] == a;
    assert LeftStrip(a) == a && a[|a|..] == [];
  }

  lemma SplitJoin(a: string, rest: string)
    requires IsToken(a)
    ensures Split(a + " " + rest) == [a] + Split(rest)
  {
    var t := a + " " + rest;
    assert t == a + (" " + rest);
    TokenLengthOf(a, " " + rest);
    assert t[..|a|] == a && t[|a|..] == " " + rest;
    assert LeftStrip(" " + rest) == LeftStrip(rest) by { assert (" " + rest)[1..] == rest; }
  }

  lemma SplitAtMostJoin(a: string, rest: string, n: nat)
    requires IsToken(a)
    ensures SplitAtMost(a + " " + rest, n + 1) == [a] + SplitAtMost(rest, n)
  {
    var t := a + " " + rest;
    assert t == a + (" " + rest);
    TokenLengthOf(a, " " + rest);
    assert t[..|a|] == a && t[|a|..] == " " + rest;
    assert LeftStrip(" " + rest) == LeftStrip(rest) by { assert (" " + rest)[1..] == rest; }
  }

  /** Every element `split()` yields is a token. */
  lemma {:induction false} SplitTokens(s: string)
    ensures forall i :: 0 <= i < |Split(s)| ==> IsToken(Split(s)[i])
    decreases |s|
  {
    LeftStripShape(s);
    var t := LeftStrip(s);
    if t != [] {
      SplitTokens(t[TokenLength(t)..]);
    }
  }

  /** A token, a space and stripped text: stripped again, and split token first. */
  lemma PrependToken(a: string, rest: string)
    requires IsToken(a) && rest != [] && Strip(rest) == rest
    ensures var text := a + " " + rest;
      text != [] && Strip(text) == text && Split(text) == [a] + Split(rest)
  {
    StripFixes(rest);
    StripFixes(a + " " + rest);
    SplitJoin(a, rest);
  }

  /** Four tokens joined by single spaces, as `split` reads them back. */
  lemma SplitFour(a: string, b: string, c: string, d: string)
    requires IsToken(a) && IsToken(b) && IsToken(c) && IsToken(d)
    ensures var text := a + " " + (b + " " + (c + " " + d));
      Strip(text) == text && text != [] && Split(text) == [a] + ([b] + ([c] + [d]))
  {
    StripFixes(d);
    SplitOne(d);
    PrependToken(c, d);
    PrependToken(b, c + " " + d);
    PrependToken(a, b + " " + (c + " " + d));
  }

  /** Stripping text that starts with a token strips only what follows it. */
  lemma StripAfterToken(a: string, rest: string)
    requires IsToken(a)
    ensures Strip(a + " " + rest) == if RightStrip(rest) == [] then a else a + " " + RightStrip(rest)
  {
    assert a + " " + rest == (a + " ") + rest;
    assert LeftStrip(a + " " + rest) == a + " " + rest;
    RightStripAppend(a + " ", rest);
    assert (a + " ")[..|a|] == a && RightStrip(a) == a;
  }

  lemma RightStripEmpty(s: string)
    ensures RightStrip(s) == [] <==> Strip(s) == []
  {
    RightStripShape(s);
    StripCommutes(s);
    if RightStrip(s) != [] {
      LeftStripKeepsLast(RightStrip(s));
    }
  }

  /** Two tokens and a rest: splitting at most twice yields the rest stripped, if any is left. */
  lemma SplitTwoAndRest(a: string, b: string, rest: string)
    requires IsToken(a) && IsToken(b)
    ensures var text := a + " " + (b + " " + rest);
      && Strip(text) != []
      && SplitAtMost(Strip(text), 2) == if Strip(rest) == [] then [a] + [b] else [a] + ([b] + [Strip(rest)])
  {
    var tail := b + " " + rest;
    StripAfterToken(a, tail);
    StripAfterToken(b, rest);
    RightStripEmpty(rest);
    assert LeftStrip(tail) == tail;
    var keptTail := RightStrip(tail);
    SplitAtMostJoin(a, keptTail, 1);
    StripCommutes(rest);
    if Strip(rest) == [] {
      SplitLast(b, 1);
    } else {
      SplitAtMostJoin(b, RightStrip(rest), 0);
    }
  }

  lemma SplitLast(b: string, n: nat)
    requires IsToken(b)
    ensures SplitAtMost(b, n) == [b]
  {
    TokenLengthOf(b, []);
    assert b + [] == b;
    assert LeftStrip(b) == b && b[|b|..] == [];
  }

  function LowerChar(c: char): char {
    if 'A' <= c <= 'Z' then ((c as int) + 32) as char else c
  }

  function Lower(s: string): (r: string)
    ensures |r| == |s|
    ensures forall i :: 0 <= i < |s| ==> r[i] == LowerChar(s[i])
  {
    if s == [] then [] else [LowerChar(s[0])] + Lower(s[1..])
  }

  /** `a.lower().endswith(b.lower())`. */
  predicate EndsWithIgnoringCase(a: string, b: string) {
    |b| <= |a| && Lower(a[|a| - |b|..]) == Lower(b)
  }

  predicate IsDigit(c: char) { '0' <= c <= '9' }

  function DigitValue(c: char): (d: nat)
    requires IsDigit(c)
    ensures d < 10
  {
    (c as int) - ('0' as int)
  }

  /** Decimal text of a number, as f-strings print it. */
  function Decimal(n: nat): (s: string)
    ensures s != [] && forall i :: 0 <= i < |s| ==> IsDigit(s[i])
  {
    if n < 10 then [(n + ('0' as int)) as char] else Decimal(n / 10) + Decimal(n % 10)
  }

  /** The digits of a Python integer literal: single underscores are allowed between digits. */
  function ScanDigits(s: string, acc: int, afterDigit: bool): Option<int> {
    if s == [] then (if afterDigit then Some(acc) else None)
    else if IsDigit(s[0]) then ScanDigits(s[1..], acc * 10 + DigitValue(s[0]), true)
    else if s[0] == '_' && afterDigit then ScanDigits(s[1..], acc, false)
    else None
  }

  /** `int(token)` for text without outer white space; None stands for ValueError. */
  function ParseInt(s: string): Option<int> {
    var negative := s != [] && s[0] == '-';
    var unsigned := if negative || (s != [] && s[0] == '+') then s[1..] else s;
    var magnitude := ScanDigits(unsigned, 0, false);
    if magnitude.None? then None
    else if negative then Some(-magnitude.value)
    else Some(magnitude.value)
  }

  lemma {:induction false} ScanDecimal(n: nat, rest: string)
    ensures ScanDigits(Decimal(n) + rest, 0, false) == ScanDigits(rest, n, true)
    decreases n
  {
    if n < 10 {
      assert (Decimal(n) + rest)[1..] == rest;
    } else {
      ScanDecimal(n / 10, Decimal(n % 10) + rest);
      assert Decimal(n) + rest == Decimal(n / 10) + (Decimal(n % 10) + rest);
      assert (Decimal(n % 10) + rest)[1..] == rest;
    }
  }

  /** Printing a number and reading it back with int() gives the number. */
  lemma ParseDecimal(n: nat)
    ensures ParseInt(Decimal(n)) == Some(n) && IsToken(Decimal(n))
  {
    ScanDecimal(n, []);
    assert Decimal(n) + [] == Decimal(n);
  }
  // ---------------------------------------------------------------- the same, spelled out

  /** The ten white space characters of ASCII. */
  lemma SpacesAre(c: char)
    ensures IsSpace(c) <==> c in {' ', '\t', '\n', '\U{0B}', '\U{0C}', '\r', '\U{1C}', '\U{1D}', '\U{1E}', '\U{1F}'}
  {
  }

  /** Lower case keeps a letter's place in the alphabet, and every other character. */
  lemma LowerKeepsPlace(c: char)
    ensures 'A' <= c <= 'Z' ==> 'a' <= LowerChar(c) <= 'z' && LowerChar(c) as int - 'a' as int == c as int - 'A' as int
    ensures !('A' <= c <= 'Z') ==> LowerChar(c) == c
  {
  }

  /** A Python integer literal without sign: digits, with single underscores between them. */
  ghost predicate DigitsText(s: string) {
    && s != [] && s[0] != '_' && s[|s| - 1] != '_' && (forall i :: 0 <= i < |s| ==> IsDigit(s[i]) || s[i] == '_')
    && (forall i, j :: 0 <= i < j < |s| && j == i + 1 ==> s[i] != '_' || s[j] != '_')
  }

  lemma {:induction false} DigitsScan(s: string, acc: int, afterDigit: bool)
    ensures ScanDigits(s, acc, afterDigit).Some? <==>
      if s == [] then afterDigit
      else if s[0] == '_' then afterDigit && DigitsText(s[1..])
      else DigitsText(s)
  {
    if s != [] {
      var rest := s[1..];
      if IsDigit(s[0]) {
        DigitsScan(rest, acc * 10 + DigitValue(s[0]), true);
        FirstDigit(s);
      } else if s[0] == '_' && afterDigit {
        DigitsScan(rest, acc, false);
      }
    }
  }

  lemma FirstDigit(s: string)
    requires s != [] && IsDigit(s[0])
    ensures DigitsText(s) <==>
      s[1..] == [] || (if s[1] == '_' then DigitsText(s[2..]) else DigitsText(s[1..]))
  {
    assert forall i :: 1 <= i < |s| ==> s[i] == s[1..][i - 1];
    assert forall i :: 2 <= i < |s| ==> s[i] == s[2..][i - 2];
  }
}
