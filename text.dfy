/**
 * The handful of Python 2 `str` operations the three cores rely on, on
 * byte strings in the C locale (so "letter", "digit" and "whitespace" are
 * the ASCII classes): `split(sep)`, `split()`, `lower()`, `title()`,
 * `strip()`, `os.path.basename`, `str(n)` and `int(s)`.
 */
module Text {
  import opened Wrappers

  // ---------------------------------------------------------------------
  // Character classes

  predicate IsLetter(c: char) {
    ('a' <= c <= 'z') || ('A' <= c <= 'Z')
  }

  predicate IsDigit(c: char) {
    '0' <= c <= '9'
  }

  /** The characters `str.split()` and `str.strip()` treat as whitespace. */
  predicate IsSpace(c: char) {
    c == ' ' || c == '\t' || c == '\n' || c == '\r' || c == '\U{0B}' || c == '\U{0C}'
  }

  function LowerChar(c: char): char {
    if 'A' <= c <= 'Z' then (c as int + 32) as char else c
  }

  function UpperChar(c: char): char {
    if 'a' <= c <= 'z' then (c as int - 32) as char else c
  }

  // ---------------------------------------------------------------------
  // s.split(sep) and its inverse sep.join(parts)

  /** Python's `s.split(sep)` for a one-character separator: never empty. */
  function Split(s: string, sep: char): (parts: seq<string>)
    ensures |parts| >= 1
  {
    if s == [] then [""]
    else
      var rest := Split(s[1..], sep);
      if s[0] == sep then [""] + rest
      else [[s[0]] + rest[0]] + rest[1..]
  }

  /** No piece of a split holds the separator. */
  lemma {:induction false} SplitPieces(s: string, sep: char)
    ensures forall i :: 0 <= i < |Split(s, sep)| ==> sep !in Split(s, sep)[i]
  {
    if s != [] {
      SplitPieces(s[1..], sep);
      var rest := Split(s[1..], sep);
      if s[0] != sep {
        assert sep !in rest[0];
        assert [s[0]] + rest[0] == Split(s, sep)[0];
        assert forall i :: 1 <= i < |Split(s, sep)| ==> Split(s, sep)[i] == rest[i];
      } else {
        assert forall i :: 1 <= i < |Split(s, sep)| ==> Split(s, sep)[i] == rest[i - 1];
      }
    }
  }

  /** Python's `sep.join(parts)`. */
  function Join(parts: seq<string>, sep: char): string
  {
    if parts == [] then ""
    else if |parts| == 1 then parts[0]
    else parts[0] + [sep] + Join(parts[1..], sep)
  }

  /** Joining the pieces of a split gives back the string. */
  lemma {:induction false} JoinSplit(s: string, sep: char)
    ensures Join(Split(s, sep), sep) == s
  {
    if s != [] {
      var rest := Split(s[1..], sep);
      JoinSplit(s[1..], sep);
      if s[0] == sep {
        assert Split(s, sep) == [""] + rest;
        assert Join([""] + rest, sep) == [sep] + Join(rest, sep);
      } else {
        var parts := [[s[0]] + rest[0]] + rest[1..];
        if |rest| == 1 {
          assert Join(parts, sep) == [s[0]] + rest[0];
        } else {
          assert parts[1..] == rest[1..];
          assert Join(rest, sep) == rest[0] + [sep] + Join(rest[1..], sep);
        }
      }
    }
  }

  lemma {:induction false} SplitWithout(a: string, sep: char)
    requires sep !in a
    ensures Split(a, sep) == [a]
  {
    if a != [] {
      SplitWithout(a[1..], sep);
      assert [a[0]] + a[1..] == a;
    }
  }

  lemma {:induction false} SplitAround(a: string, sep: char, b: string)
    requires sep !in a
    ensures Split(a + [sep] + b, sep) == [a] + Split(b, sep)
  {
    if a == [] {
      assert a + [sep] + b == [sep] + b;
      assert ([sep] + b)[1..] == b;
    } else {
      assert (a + [sep] + b)[1..] == a[1..] + [sep] + b;
      SplitAround(a[1..], sep, b);
      assert [a[0]] + a[1..] == a;
    }
  }

  /** Splitting a join of separator-free pieces gives back the pieces. */
  lemma {:induction false} SplitJoin(parts: seq<string>, sep: char)
    requires |parts| >= 1
    requires forall i :: 0 <= i < |parts| ==> sep !in parts[i]
    ensures Split(Join(parts, sep), sep) == parts
  {
    if |parts| == 1 {
      SplitWithout(parts[0], sep);
    } else {
      SplitJoin(parts[1..], sep);
      SplitAround(parts[0], sep, Join(parts[1..], sep));
      assert [parts[0]] + parts[1..] == parts;
    }
  }

  /** `s.split(sep)[0]`: the text before the first separator. */
  function Before(s: string, sep: char): string
  {
    Split(s, sep)[0]
  }

  /** `s.split(sep)[0]` is the longest prefix of `s` without `sep`. */
  lemma {:induction false} BeforeIsPrefix(s: string, sep: char)
    ensures sep !in Before(s, sep)
    ensures |Before(s, sep)| <= |s| && Before(s, sep) == s[..|Before(s, sep)|]
    ensures |Before(s, sep)| < |s| ==> s[|Before(s, sep)|] == sep
  {
    SplitPieces(s, sep);
    if s != [] {
      BeforeIsPrefix(s[1..], sep);
    }
  }

  // ---------------------------------------------------------------------
  // s.split() on runs of whitespace

  /** The longest prefix of `s` without whitespace. */
  function Word(s: string): (w: string)
    ensures |w| <= |s|
    ensures s != [] && !IsSpace(s[0]) ==> |w| >= 1
  {
    if s == [] || IsSpace(s[0]) then [] else [s[0]] + Word(s[1..])
  }

  /** `Word(s)` is a whitespace-free prefix of `s` that stops at whitespace or the end. */
  lemma {:induction false} WordSpec(s: string)
    ensures Word(s) == s[..|Word(s)|]
    ensures forall i :: 0 <= i < |Word(s)| ==> !IsSpace(Word(s)[i])
    ensures |Word(s)| < |s| ==> IsSpace(s[|Word(s)|])
  {
    if s != [] && !IsSpace(s[0]) {
      WordSpec(s[1..]);
      assert forall i :: 1 <= i < |Word(s)| ==> Word(s)[i] == Word(s[1..])[i - 1];
    }
  }

  /** Python's `s.split()`: the maximal whitespace-free, non-empty runs. */
  function Tokens(s: string): seq<string>
    decreases |s|
  {
    if s == [] then []
    else if IsSpace(s[0]) then Tokens(s[1..])
    else
      var w := Word(s);
      [w] + Tokens(s[|w|..])
  }

  /** Every token is non-empty and free of whitespace. */
  lemma {:induction false} TokensSpec(s: string)
    ensures forall i :: 0 <= i < |Tokens(s)| ==> |Tokens(s)[i]| >= 1
    ensures forall i, j :: 0 <= i < |Tokens(s)| && 0 <= j < |Tokens(s)[i]| ==> !IsSpace(Tokens(s)[i][j])
    decreases |s|
  {
    if s != [] {
      if IsSpace(s[0]) {
        TokensSpec(s[1..]);
      } else {
        var w := Word(s);
        WordSpec(s);
        TokensSpec(s[|w|..]);
        assert forall i :: 1 <= i < |Tokens(s)| ==> Tokens(s)[i] == Tokens(s[|w|..])[i - 1];
      }
    }
  }

  // ---------------------------------------------------------------------
  // lower(), title(), strip(), os.path.basename

  function Lower(s: string): string {
    seq(|s|, i requires 0 <= i < |s| => LowerChar(s[i]))
  }

  /**
   * Python's `s.title()`: a letter is upper-cased when the character before
   * it is not a letter, and lower-cased otherwise.
   */
  function Title(s: string): string {
    TitleAfter(s, false)
  }

  function TitleAfter(s: string, afterLetter: bool): string
  {
    if s == [] then ""
    else if IsLetter(s[0]) then
      [if afterLetter then LowerChar(s[0]) else UpperChar(s[0])] + TitleAfter(s[1..], true)
    else [s[0]] + TitleAfter(s[1..], false)
  }

  /** `title()` only changes the case of letters: non-letters stay, letters stay letters. */
  lemma {:induction false} TitleCase(s: string, afterLetter: bool)
    ensures |TitleAfter(s, afterLetter)| == |s|
    ensures forall i :: 0 <= i < |s| ==> LowerChar(TitleAfter(s, afterLetter)[i]) == LowerChar(s[i])
    ensures forall i :: 0 <= i < |s| && !IsLetter(s[i]) ==> TitleAfter(s, afterLetter)[i] == s[i]
    ensures forall i :: 0 <= i < |s| && IsLetter(s[i]) ==> IsLetter(TitleAfter(s, afterLetter)[i])
  {
    if s != [] {
      var next := IsLetter(s[0]);
      TitleCase(s[1..], next);
      var t := TitleAfter(s, afterLetter);
      assert forall i :: 1 <= i < |s| ==> t[i] == TitleAfter(s[1..], next)[i - 1] && s[i] == s[1..][i - 1];
    }
  }

  function StripLeft(s: string): string {
    if s != [] && IsSpace(s[0]) then StripLeft(s[1..]) else s
  }

  function StripRight(s: string): string {
    if s != [] && IsSpace(s[|s| - 1]) then StripRight(s[..|s| - 1]) else s
  }

  /** Python's `s.strip()`. */
  function Strip(s: string): string {
    StripRight(StripLeft(s))
  }

  lemma StripNoSpace(s: string)
    requires forall i :: 0 <= i < |s| ==> !IsSpace(s[i])
    ensures Strip(s) == s
  {
  }

  /** `os.path.basename(p)`: what follows the last `/`. */
  function Basename(p: string): string
  {
    if p == [] || p[|p| - 1] == '/' then ""
    else Basename(p[..|p| - 1]) + [p[|p| - 1]]
  }

  /** The basename is the longest `/`-free suffix of the path. */
  lemma {:induction false} BasenameSuffix(p: string)
    ensures '/' !in Basename(p)
    ensures |Basename(p)| <= |p| && Basename(p) == p[|p| - |Basename(p)|..]
    ensures |Basename(p)| < |p| ==> p[|p| - |Basename(p)| - 1] == '/'
  {
    if p != [] && p[|p| - 1] != '/' {
      var q := p[..|p| - 1];
      BasenameSuffix(q);
      var b, c := Basename(p), Basename(q);
      var k := |q| - |c|;
      assert b == c + [p[|p| - 1]];
      assert |p| - |b| == k;
      assert p[k..] == q[k..] + [p[|p| - 1]];
      if k > 0 {
        assert p[k - 1] == q[k - 1];
      }
    }
  }

  // ---------------------------------------------------------------------
  // str(n) and int(s)

  function DigitChar(d: nat): (c: char)
    requires d < 10
    ensures IsDigit(c) && c as int - '0' as int == d
  {
    ('0' as int + d) as char
  }

  predicate AllDigits(s: string) {
    forall i :: 0 <= i < |s| ==> IsDigit(s[i])
  }

  /** `str(n)` for a natural number: shortest decimal spelling. */
  function NatToDecimal(n: nat): (r: string)
    ensures |r| >= 1 && AllDigits(r)
  {
    if n < 10 then [DigitChar(n)] else NatToDecimal(n / 10) + [DigitChar(n % 10)]
  }

  /** Python's `str(n)`. */
  function IntToDecimal(n: int): string {
    if n < 0 then "-" + NatToDecimal(-n) else NatToDecimal(n)
  }

  /** The value of a non-empty run of decimal digits. */
  function DigitsValue(s: string): nat
    requires |s| >= 1 && AllDigits(s)
  {
    if |s| == 1 then s[0] as int - '0' as int
    else DigitsValue(s[..|s| - 1]) * 10 + (s[|s| - 1] as int - '0' as int)
  }

  /**
   * Python 2's `int(s)` on a string: surrounding whitespace, an optional
   * sign, optional whitespace after the sign, then decimal digits.
   */
  function ParseInt(s: string): Option<int> {
    var t := Strip(s);
    if |t| >= 1 && (t[0] == '-' || t[0] == '+') then
      var u := StripLeft(t[1..]);
      if |u| >= 1 && AllDigits(u) then
        var v: int := DigitsValue(u);
        Some(if t[0] == '-' then -v else v)
      else None
    else if |t| >= 1 && AllDigits(t) then
      Some(DigitsValue(t))
    else None
  }

  /** Leading whitespace is dropped up to the first other character. */
  lemma {:induction false} StripLeftSpaces(w: string, d: string)
    requires forall i :: 0 <= i < |w| ==> IsSpace(w[i])
    requires |d| >= 1 && !IsSpace(d[0])
    ensures StripLeft(w + d) == d
  {
    if w != [] {
      assert (w + d)[1..] == w[1..] + d;
      StripLeftSpaces(w[1..], d);
    }
  }

  /** A sign, any whitespace, then digits: the digits' value with that sign. */
  lemma ParseSigned(sign: char, w: string, d: string)
    requires sign == '-' || sign == '+'
    requires forall i :: 0 <= i < |w| ==> IsSpace(w[i])
    requires |d| >= 1 && AllDigits(d)
    ensures ParseInt([sign] + w + d) == Some(if sign == '-' then -(DigitsValue(d) as int) else DigitsValue(d))
  {
    SignedText(sign, w, d);
    ParseAfterSign([sign] + w + d, d);
  }

  /** The text of `ParseSigned` strips to itself, and after its sign to its digits. */
  lemma SignedText(sign: char, w: string, d: string)
    requires sign == '-' || sign == '+'
    requires forall i :: 0 <= i < |w| ==> IsSpace(w[i])
    requires |d| >= 1 && AllDigits(d)
    ensures var s := [sign] + w + d; |s| >= 1 && s[0] == sign && Strip(s) == s && StripLeft(s[1..]) == d
  {
    var s := [sign] + w + d;
    assert IsDigit(d[0]) && IsDigit(d[|d| - 1]);
    assert s[0] == sign && s[|s| - 1] == d[|d| - 1];
    StripEnds(s);
    assert s[1..] == w + d;
    StripLeftSpaces(w, d);
  }

  /** Text that neither starts nor ends with whitespace is its own strip. */
  lemma StripEnds(s: string)
    requires |s| >= 1 && !IsSpace(s[0]) && !IsSpace(s[|s| - 1])
    ensures Strip(s) == s
  {
    assert StripLeft(s) == s;
  }

  /** Stripped text with a sign reads as the digits that follow the sign and its whitespace. */
  lemma ParseAfterSign(t: string, u: string)
    requires |t| >= 1 && (t[0] == '-' || t[0] == '+') && Strip(t) == t
    requires StripLeft(t[1..]) == u && |u| >= 1 && AllDigits(u)
    ensures ParseInt(t) == Some(if t[0] == '-' then -(DigitsValue(u) as int) else DigitsValue(u))
  {
  }

  lemma {:induction false} DigitsOfDecimal(n: nat)
    ensures DigitsValue(NatToDecimal(n)) == n
  {
    if n >= 10 {
      var s := NatToDecimal(n);
      assert s[..|s| - 1] == NatToDecimal(n / 10);
      DigitsOfDecimal(n / 10);
    }
  }

  /** `int(str(n)) == n`. */
  lemma ParseDecimal(n: int)
    ensures ParseInt(IntToDecimal(n)) == Some(n)
  {
    if n < 0 {
      assert IntToDecimal(n) == "-" + NatToDecimal(-n);
      ParseNegative(-n);
    } else {
      assert IntToDecimal(n) == NatToDecimal(n);
      ParseNatural(n);
    }
  }

  lemma ParseNatural(m: nat)
    ensures ParseInt(NatToDecimal(m)) == Some(m)
  {
    var s := NatToDecimal(m);
    DigitsOfDecimal(m);
    assert forall i :: 0 <= i < |s| ==> !IsSpace(s[i]) by {
      assert AllDigits(s);
    }
    StripNoSpace(s);
    assert IsDigit(s[0]);
  }

  lemma ParseNegative(m: nat)
    requires m > 0
    ensures ParseInt("-" + NatToDecimal(m)) == Some(-(m as int))
  {
    var d := NatToDecimal(m);
    var s := "-" + d;
    DigitsOfDecimal(m);
    assert s == ['-'] + [] + d;
    ParseSigned('-', [], d);
  }
}
