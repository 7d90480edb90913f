/** Strings as the source builds them: `str.split`, `':'.join`, decimal rendering of
    integers (`str(int)`, `'%02d'`, `'%04d'`). */
module Text {

  /** The parts of `s` between occurrences of `sep`; like Python's `str.split(sep)` and
      JavaScript's `String.prototype.split(sep)` for a one-character separator, it always
      yields at least one part. */
  function Split(s: string, sep: char): (parts: seq<string>)
    ensures |parts| >= 1
  {
    if s == [] then [""]
    else if s[0] == sep then [""] + Split(s[1..], sep)
    else
      var rest := Split(s[1..], sep);
      [[s[0]] + rest[0]] + rest[1..]
  }

  /** The parts glued together with `sep` between neighbours, as `sep.join(parts)`. */
  function Join(parts: seq<string>, sep: char): (s: string)
    ensures |parts| == 1 ==> s == parts[0]
  {
    if |parts| == 0 then ""
    else if |parts| == 1 then parts[0]
    else parts[0] + [sep] + Join(parts[1..], sep)
  }

  predicate Free(s: string, sep: char) {
    sep !in s
  }

  predicate AllFree(parts: seq<string>, sep: char) {
    forall i :: 0 <= i < |parts| ==> Free(parts[i], sep)
  }

  /** Splitting text that starts with a separator-free prefix keeps that prefix glued to
      the first part. */
  lemma {:induction false} SplitFreePrefix(p: string, s: string, sep: char)
    requires Free(p, sep)
    ensures Split(p + s, sep) == [p + Split(s, sep)[0]] + Split(s, sep)[1..]
  {
    if p == [] {
      assert p + s == s;
      var r := Split(s, sep);
      assert r == [r[0]] + r[1..];
      assert p + r[0] == r[0];
    } else {
      assert (p + s)[0] == p[0];
      assert (p + s)[1..] == p[1..] + s;
      SplitFreePrefix(p[1..], s, sep);
      assert [p[0]] + (p[1..] + Split(s, sep)[0]) == p + Split(s, sep)[0];
    }
  }

  /** Splitting a join of separator-free parts gives the parts back. */
  lemma {:induction false} SplitJoin(parts: seq<string>, sep: char)
    requires |parts| >= 1
    requires AllFree(parts, sep)
    ensures Split(Join(parts, sep), sep) == parts
  {
    if |parts| == 1 {
      assert Free(parts[0], sep);
      SplitFreePrefix(parts[0], "", sep);
      assert parts[0] + "" == parts[0];
      assert parts[0] + Split("", sep)[0] == parts[0];
    } else {
      var rest := Join(parts[1..], sep);
      assert AllFree(parts[1..], sep) by {
        forall i | 0 <= i < |parts[1..]| ensures Free(parts[1..][i], sep) {
          assert parts[1..][i] == parts[i + 1];
        }
      }
      SplitJoin(parts[1..], sep);
      assert Free(parts[0], sep);
      SplitFreePrefix(parts[0], [sep] + rest, sep);
      assert parts[0] + [sep] + rest == parts[0] + ([sep] + rest);
      assert ([sep] + rest)[1..] == rest;
      assert Split([sep] + rest, sep) == [""] + parts[1..];
      assert parts[0] + "" == parts[0];
      assert [parts[0]] + parts[1..] == parts;
    }
  }

  /** Joins of separator-free parts are equal only when the parts are. */
  lemma JoinInjective(a: seq<string>, b: seq<string>, sep: char)
    requires |a| >= 1 && |b| >= 1
    requires AllFree(a, sep) && AllFree(b, sep)
    requires Join(a, sep) == Join(b, sep)
    ensures a == b
  {
    SplitJoin(a, sep);
    SplitJoin(b, sep);
  }

  /** A separator occurs in a join of separator-free parts only between parts. */
  lemma {:induction false} JoinFree(parts: seq<string>, sep: char, other: char)
    requires AllFree(parts, other) && sep != other
    ensures Free(Join(parts, sep), other)
  {
    if |parts| > 1 {
      assert AllFree(parts[1..], other) by {
        forall i | 0 <= i < |parts[1..]| ensures Free(parts[1..][i], other) {
          assert parts[1..][i] == parts[i + 1];
        }
      }
      JoinFree(parts[1..], sep, other);
      assert Free(parts[0], other);
      var j := Join(parts, sep);
      assert j == parts[0] + [sep] + Join(parts[1..], sep);
      forall k | 0 <= k < |j| ensures j[k] != other {
        if k < |parts[0]| {
          assert j[k] == parts[0][k];
        } else if k > |parts[0]| {
          assert j[k] == Join(parts[1..], sep)[k - |parts[0]| - 1];
        }
      }
    } else if |parts| == 1 {
      assert Free(parts[0], other);
    }
  }

  /** A separator-free first part ends at the first separator, so it and the rest are
      determined by the text. */
  lemma PrefixCancel(p1: string, x: string, p2: string, y: string, sep: char)
    requires Free(p1, sep) && Free(p2, sep)
    requires p1 + [sep] + x == p2 + [sep] + y
    ensures p1 == p2 && x == y
  {
    var s := p1 + [sep] + x;
    assert s[|p1|] == sep;
    assert forall i :: 0 <= i < |p2| ==> s[i] == p2[i];
    assert |p1| >= |p2|;
    assert s[|p2|] == sep;
    assert forall i :: 0 <= i < |p1| ==> s[i] == p1[i];
    assert |p2| >= |p1|;
    assert p1 == s[..|p1|] && p2 == s[..|p2|];
    assert x == s[|p1| + 1..] && y == s[|p2| + 1..];
  }

  /** A separator-free last part starts after the last separator, so it and the rest are
      determined by the text. */
  lemma SuffixCancel(x: string, q1: string, y: string, q2: string, sep: char)
    requires Free(q1, sep) && Free(q2, sep)
    requires x + [sep] + q1 == y + [sep] + q2
    ensures x == y && q1 == q2
  {
    var s := x + [sep] + q1;
    var n := |s|;
    assert s[n - 1 - |q1|] == sep;
    assert forall j :: n - |q2| <= j < n ==> s[j] == q2[j - (n - |q2|)];
    assert |q1| >= |q2|;
    assert s[n - 1 - |q2|] == sep;
    assert forall j :: n - |q1| <= j < n ==> s[j] == q1[j - (n - |q1|)];
    assert |q2| >= |q1|;
    assert q1 == s[n - |q1|..] && q2 == s[n - |q2|..];
    assert x == s[..n - 1 - |q1|] && y == s[..n - 1 - |q2|];
  }

  // ---------------------------------------------------------------------------
  // Decimal digits

  predicate IsDigit(c: char) {
    '0' <= c <= '9'
  }

  predicate AllDigits(s: string) {
    forall i :: 0 <= i < |s| ==> IsDigit(s[i])
  }

  function DigitChar(d: nat): (c: char)
    requires d < 10
    ensures IsDigit(c)
  {
    ['0', '1', '2', '3', '4', '5', '6', '7', '8', '9'][d]
  }

  function DigitValue(c: char): (d: nat)
    requires IsDigit(c)
    ensures d < 10
  {
    (c as int - '0' as int) as nat
  }

  /** The shortest decimal rendering of `n`, as Python's `str(n)` for `n >= 0`. */
  function Decimal(n: nat): (s: string)
    ensures |s| >= 1 && AllDigits(s)
  {
    if n < 10 then [DigitChar(n)] else Decimal(n / 10) + [DigitChar(n % 10)]
  }

  /** The number a string of decimal digits denotes (leading zeros allowed). */
  function DigitsValue(s: string): nat
    requires AllDigits(s)
  {
    if s == [] then 0 else DigitsValue(s[..|s| - 1]) * 10 + DigitValue(s[|s| - 1])
  }

  lemma {:induction false} DecimalRoundTrip(n: nat)
    ensures DigitsValue(Decimal(n)) == n
  {
    if n < 10 {
      assert Decimal(n)[..0] == [];
      assert DigitValue(DigitChar(n)) == n;
    } else {
      var s := Decimal(n);
      DecimalRoundTrip(n / 10);
      assert s[..|s| - 1] == Decimal(n / 10);
      assert DigitValue(DigitChar(n % 10)) == n % 10;
    }
  }

  lemma {:induction false} LeadingZero(s: string)
    requires AllDigits(s)
    ensures AllDigits("0" + s) && DigitsValue("0" + s) == DigitsValue(s)
  {
    var z := "0" + s;
    if s != [] {
      assert z[..|z| - 1] == "0" + s[..|s| - 1];
      assert z[|z| - 1] == s[|s| - 1];
      LeadingZero(s[..|s| - 1]);
    } else {
      assert z[..|z| - 1] == [];
    }
  }

  /** `s` left-padded with '0' to at least `width` characters, as `'%0*d'`. */
  function ZeroPad(s: string, width: nat): (r: string)
    ensures |r| == if |s| >= width then |s| else width
    ensures AllDigits(s) ==> AllDigits(r)
    decreases width - |s|
  {
    if |s| >= width then s else ZeroPad("0" + s, width)
  }

  lemma {:induction false} ZeroPadValue(s: string, width: nat)
    requires AllDigits(s)
    ensures DigitsValue(ZeroPad(s, width)) == DigitsValue(s)
    decreases width - |s|
  {
    if |s| < width {
      LeadingZero(s);
      ZeroPadValue("0" + s, width);
    }
  }

  /** `'%0*d' % n` for `n >= 0`. */
  function PaddedDecimal(n: nat, width: nat): (s: string)
    ensures AllDigits(s) && |s| >= width && |s| >= 1
  {
    ZeroPad(Decimal(n), width)
  }

  lemma PaddedDecimalInjective(a: nat, b: nat, width: nat)
    requires PaddedDecimal(a, width) == PaddedDecimal(b, width)
    ensures a == b
  {
    ZeroPadValue(Decimal(a), width);
    ZeroPadValue(Decimal(b), width);
    DecimalRoundTrip(a);
    DecimalRoundTrip(b);
  }

  /** Two-digit rendering of a number below 100 is exactly two characters. */
  lemma PaddedTwo(n: nat)
    requires n < 100
    ensures |PaddedDecimal(n, 2)| == 2
  {
    if n >= 10 {
      assert Decimal(n) == Decimal(n / 10) + [DigitChar(n % 10)];
    }
  }

  /** Python's `str(i)`: an optional minus sign then the digits. */
  function IntText(i: int): (s: string)
    ensures |s| >= 1 && (IsDigit(s[0]) || s[0] == '-')
  {
    if i < 0 then "-" + Decimal(-i) else Decimal(i)
  }

  lemma DecimalInjective(a: nat, b: nat)
    requires Decimal(a) == Decimal(b)
    ensures a == b
  {
    DecimalRoundTrip(a);
    DecimalRoundTrip(b);
  }

  lemma IntTextInjective(a: int, b: int)
    requires IntText(a) == IntText(b)
    ensures a == b
  {
    var s := IntText(a);
    if a < 0 {
      assert s[0] == '-';
      assert b < 0;
      assert s[1..] == Decimal(-a);
      assert s[1..] == Decimal(-b);
      DecimalInjective(-a, -b);
    } else {
      assert IsDigit(s[0]);
      assert b >= 0;
      DecimalInjective(a, b);
    }
  }

  lemma IntTextFree(i: int, sep: char)
    requires !IsDigit(sep) && sep != '-'
    ensures Free(IntText(i), sep)
  {
    var s := IntText(i);
    var d := if i < 0 then Decimal(-i) else Decimal(i);
    forall k | 0 <= k < |s| ensures s[k] != sep {
      if i < 0 && k > 0 {
        assert s[k] == d[k - 1];
      }
    }
  }
}
