/**
 * Decimal numerals as text: printing, padding, reading back, and comparing numerals as strings.
 */
module DecimalText {

  predicate IsDigit(c: char) {
    '0' <= c <= '9'
  }

  predicate AllDigits(s: string) {
    forall i :: 0 <= i < |s| ==> IsDigit(s[i])
  }

  function DigitChar(d: nat): (c: char)
    requires d < 10
    ensures IsDigit(c) && DigitValue(c) == d
  {
    "0123456789"[d]
  }

  function DigitValue(c: char): (d: nat)
    requires IsDigit(c)
    ensures d < 10
  {
    c as int - '0' as int
  }

  function Pow10(k: nat): (p: nat)
    ensures p >= 1
  {
    if k == 0 then 1 else 10 * Pow10(k - 1)
  }

  /** The numeral of n without leading zeros. */
  function ToString(n: nat): (s: string)
    ensures AllDigits(s) && |s| >= 1
  {
    if n < 10 then [DigitChar(n)] else ToString(n / 10) + [DigitChar(n % 10)]
  }

  function ParseNat(s: string): nat
    requires AllDigits(s)
  {
    if s == [] then 0 else 10 * ParseNat(s[..|s| - 1]) + DigitValue(s[|s| - 1])
  }

  function Zeros(k: nat): (s: string)
    ensures |s| == k && AllDigits(s)
  {
    seq(k, _ => '0')
  }

  /** Left padding with zeros up to width k; longer text is kept whole. */
  function PadZeros(s: string, k: nat): string {
    if |s| >= k then s else Zeros(k - |s|) + s
  }

  function Padded(n: nat, k: nat): (s: string)
    ensures AllDigits(s)
  {
    PadZeros(ToString(n), k)
  }

  // ---- reading back

  lemma {:induction false} ParseToString(n: nat)
    ensures ParseNat(ToString(n)) == n
  {
    if n >= 10 {
      ParseToString(n / 10);
      assert ToString(n)[..|ToString(n)| - 1] == ToString(n / 10);
    }
  }

  lemma {:induction false} ParseConcat(a: string, b: string)
    requires AllDigits(a) && AllDigits(b)
    ensures AllDigits(a + b)
    ensures ParseNat(a + b) == ParseNat(a) * Pow10(|b|) + ParseNat(b)
  {
    hide ParseNat, Pow10, AllDigits, DigitValue;
    ConcatDigits(a, b);
    if b == [] {
      assert a + b == a;
      ParseEmpty();
    } else {
      var n := |b| - 1;
      PrefixDigits(b, n);
      ParseConcat(a, b[..n]);
      ConcatDigits(a, b[..n]);
      assert (a + b)[..|a + b| - 1] == a + b[..n];
      ParseLast(a + b);
      ParseLast(b);
      Weigh(ParseNat(a), n, |b|);
    }
  }

  lemma ConcatDigits(a: string, b: string)
    requires AllDigits(a) && AllDigits(b)
    ensures AllDigits(a + b)
  {
  }

  lemma PrefixDigits(b: string, n: nat)
    requires AllDigits(b) && n < |b|
    ensures AllDigits(b[..n]) && IsDigit(b[n])
  {
  }

  lemma ParseEmpty()
    ensures AllDigits("") && ParseNat("") == 0 && Pow10(0) == 1
  {
  }

  lemma ParseLast(s: string)
    requires AllDigits(s) && s != []
    ensures AllDigits(s[..|s| - 1]) && IsDigit(s[|s| - 1])
    ensures ParseNat(s) == 10 * ParseNat(s[..|s| - 1]) + DigitValue(s[|s| - 1])
  {
  }

  lemma Weigh(x: nat, n: nat, m: nat)
    requires m == n + 1
    ensures 10 * (x * Pow10(n)) == x * Pow10(m)
  {
    assert Pow10(m) == 10 * Pow10(n);
    var p := Pow10(n);
    assert 10 * (x * p) == x * (10 * p);
  }

  lemma {:induction false} ParseZeros(k: nat)
    ensures ParseNat(Zeros(k)) == 0
  {
    if k > 0 {
      ParseZeros(k - 1);
      assert Zeros(k)[..k - 1] == Zeros(k - 1);
    }
  }

  lemma ParsePadded(n: nat, k: nat)
    ensures ParseNat(Padded(n, k)) == n
  {
    ParseToString(n);
    var s := ToString(n);
    if |s| < k {
      ParseConcat(Zeros(k - |s|), s);
      ParseZeros(k - |s|);
    }
  }

  lemma {:induction false} ParseBound(s: string)
    requires AllDigits(s)
    ensures ParseNat(s) < Pow10(|s|)
  {
    if s != [] { ParseBound(s[..|s| - 1]); }
  }

  /** A numeral is no wider than k exactly when the number is below 10^k. */
  lemma {:induction false} ToStringWidth(n: nat, k: nat)
    requires k >= 1
    ensures |ToString(n)| <= k <==> n < Pow10(k)
  {
    if n >= 10 {
      if k == 1 {
        assert Pow10(1) == 10;
      } else {
        ToStringWidth(n / 10, k - 1);
        assert n / 10 < Pow10(k - 1) <==> n < 10 * Pow10(k - 1);
      }
    } else {
      assert Pow10(k) >= 10 by { assert Pow10(k) == 10 * Pow10(k - 1); }
    }
  }

  lemma PaddedWidth(n: nat, k: nat)
    requires k >= 1
    ensures |Padded(n, k)| >= k
    ensures |Padded(n, k)| == k <==> n < Pow10(k)
  {
    ToStringWidth(n, k);
  }

  lemma {:induction false} ParseInjective(s: string, t: string)
    requires AllDigits(s) && AllDigits(t) && |s| == |t| && ParseNat(s) == ParseNat(t)
    ensures s == t
  {
    if s != [] {
      var n := |s| - 1;
      ParseInjective(s[..n], t[..n]);
      assert s == s[..n] + [s[n]] && t == t[..n] + [t[n]];
    }
  }

  /** A numeral of exactly k digits is the padded print of its value. */
  lemma PaddedParse(s: string, k: nat)
    requires AllDigits(s) && |s| == k >= 1
    ensures Padded(ParseNat(s), k) == s
  {
    ParseBound(s);
    PaddedWidth(ParseNat(s), k);
    ParsePadded(ParseNat(s), k);
    ParseInjective(Padded(ParseNat(s), k), s);
  }

  /** The first digit carries the highest weight and the rest stays below it. */
  lemma ParseFront(s: string)
    requires AllDigits(s) && |s| >= 1
    ensures ParseNat(s) == DigitValue(s[0]) * Pow10(|s| - 1) + ParseNat(s[1..])
    ensures ParseNat(s[1..]) < Pow10(|s| - 1)
  {
    var front := [s[0]];
    assert s == front + s[1..];
    ParseConcat(front, s[1..]);
    assert front[..0] == [];
    assert ParseNat(front) == DigitValue(s[0]);
    ParseBound(s[1..]);
  }

  lemma HigherDigitWins(a: nat, b: nat, p: nat, x: nat, y: nat)
    requires a < b && x < p
    ensures a * p + x < b * p + y
  {
    var d := b - a - 1;
    assert b * p == a * p + p + d * p;
    assert d * p >= 0;
  }

  lemma {:induction false} ToStringLeading(n: nat)
    ensures ToString(n)[0] == '0' <==> n == 0
  {
    if n >= 10 { ToStringLeading(n / 10); }
  }

  lemma LeadingDigitSetsWidth(s: string)
    requires AllDigits(s) && |s| >= 2 && s[0] != '0'
    ensures ParseNat(s) >= Pow10(|s| - 1)
  {
    var p, d := Pow10(|s| - 1), DigitValue(s[0]);
    ParseFront(s);
    HigherDigitWins(0, d, p, p - 1, ParseNat(s[1..]));
  }

  lemma SameWidth(s: string)
    requires AllDigits(s) && |s| >= 1 && (|s| == 1 || s[0] != '0')
    ensures |ToString(ParseNat(s))| == |s|
  {
    hide ParseNat, ToString, Pow10;
    ParseBound(s);
    ToStringWidth(ParseNat(s), |s|);
    if |s| >= 2 {
      LeadingDigitSetsWidth(s);
      ToStringWidth(ParseNat(s), |s| - 1);
    }
  }

  /** Printing undoes reading exactly on numerals without superfluous zeros. */
  lemma ToStringParse(s: string)
    requires AllDigits(s) && |s| >= 1
    ensures ToString(ParseNat(s)) == s <==> (|s| == 1 || s[0] != '0')
  {
    var n := ParseNat(s);
    ParseToString(n);
    if |s| == 1 || s[0] != '0' {
      SameWidth(s);
      ParseInjective(ToString(n), s);
    } else {
      ToStringLeading(n);
    }
  }

  // ---- comparing as strings

  /** The order JavaScript's < puts on strings. */
  predicate StringLess(a: string, b: string) {
    if b == [] then false
    else if a == [] then true
    else if a[0] != b[0] then a[0] < b[0]
    else StringLess(a[1..], b[1..])
  }

  predicate StringAtMost(a: string, b: string) {
    !StringLess(b, a)
  }

  lemma {:induction false} StringAtMostTransitive(a: string, b: string, c: string)
    requires StringAtMost(a, b) && StringAtMost(b, c)
    ensures StringAtMost(a, c)
  {
    if a != [] && b != [] && c != [] && a[0] == b[0] == c[0] {
      StringAtMostTransitive(a[1..], b[1..], c[1..]);
    }
  }

  /** On numerals of one width the string order is the order of the numbers. */
  lemma {:induction false} StringLessIsNumeric(a: string, b: string)
    requires AllDigits(a) && AllDigits(b) && |a| == |b|
    ensures StringLess(a, b) <==> ParseNat(a) < ParseNat(b)
  {
    if a != [] {
      ParseFront(a);
      ParseFront(b);
      var u, v, p := DigitValue(a[0]), DigitValue(b[0]), Pow10(|a| - 1);
      if a[0] < b[0] {
        HigherDigitWins(u, v, p, ParseNat(a[1..]), ParseNat(b[1..]));
      } else if b[0] < a[0] {
        HigherDigitWins(v, u, p, ParseNat(b[1..]), ParseNat(a[1..]));
      } else {
        StringLessIsNumeric(a[1..], b[1..]);
      }
    }
  }

  /** A common prefix does not matter; a difference decides at once. */
  lemma {:induction false} StringLessPrefix(p: string, a: string, b: string)
    ensures StringLess(p + a, p + b) <==> StringLess(a, b)
  {
    if p == [] {
      assert p + a == a && p + b == b;
    } else {
      StringLessPrefix(p[1..], a, b);
      assert (p + a)[1..] == p[1..] + a && (p + b)[1..] == p[1..] + b;
    }
  }

  lemma {:induction false} StringLessDecided(a: string, b: string, x: string, y: string)
    requires |a| == |b| && a != b
    ensures StringLess(a + x, b + y) <==> StringLess(a, b)
  {
    assert (a + x)[0] == a[0] && (b + y)[0] == b[0];
    if a[0] == b[0] {
      assert a == [a[0]] + a[1..] && b == [b[0]] + b[1..];
      StringLessDecided(a[1..], b[1..], x, y);
      assert (a + x)[1..] == a[1..] + x && (b + y)[1..] == b[1..] + y;
    }
  }
}
