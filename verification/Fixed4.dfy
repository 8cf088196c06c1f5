/**
 * Money as text with four decimals and as an integer number of ten-thousandths of a dinar ("minor").
 */
module Fixed4 {
  import opened Wrappers
  import opened DecimalText
  import opened Whitespace

  const UNIT := 10_000

  datatype ParseError = NotANumber

  function SignText(negative: bool): string {
    if negative then "-" else ""
  }

  function Abs(x: int): nat {
    if x < 0 then -x else x
  }

  function Min(a: int, b: int): int {
    if a <= b then a else b
  }

  function Max(a: int, b: int): int {
    if a >= b then a else b
  }

  function MinorToFixed4(value: int): string {
    var abs := Abs(value);
    SignText(value < 0) + ToString(abs / UNIT) + "." + Padded(abs % UNIT, 4)
  }

  /** The text before the first dot and between the first and the second dot. */
  function BeforeDot(s: string): string {
    if s == [] || s[0] == '.' then [] else [s[0]] + BeforeDot(s[1..])
  }

  function AfterDot(s: string): string {
    if s == [] then [] else if s[0] == '.' then BeforeDot(s[1..]) else AfterDot(s[1..])
  }

  /** Right-filled or cut to four places. */
  function Frac4(frac: string): (f: string)
    ensures |f| == 4
  {
    (frac + "0000")[..4]
  }

  /** Sign, whole part, four places of the fraction; anything that is not a digit raises an error. */
  function Fixed4ToMinor(value: string): Result<int, ParseError> {
    var raw := Trim(value);
    var negative := raw != [] && raw[0] == '-';
    var clean := if negative then raw[1..] else raw;
    var whole := BeforeDot(clean);
    var frac4 := Frac4(AfterDot(clean));
    if AllDigits(whole) && AllDigits(frac4) then
      var m := ParseNat(whole) * UNIT + ParseNat(frac4);
      Ok(if negative then -m else m)
    else Err(NotANumber)
  }

  // ---- reading what was printed

  lemma {:induction false} SplitAtDot(a: string, b: string)
    requires AllDigits(a) && AllDigits(b)
    ensures BeforeDot(a + "." + b) == a && AfterDot(a + "." + b) == b
  {
    if a == [] {
      assert a + "." + b == ['.'] + b;
      NoDot(b);
    } else {
      SplitAtDot(a[1..], b);
      assert (a + "." + b)[1..] == a[1..] + "." + b;
      assert a == [a[0]] + a[1..];
    }
  }

  lemma {:induction false} NoDot(b: string)
    requires AllDigits(b)
    ensures BeforeDot(b) == b
  {
    if b != [] { NoDot(b[1..]); }
  }

  lemma FourPlaces(n: nat)
    requires n < UNIT
    ensures |Padded(n, 4)| == 4 && Frac4(Padded(n, 4)) == Padded(n, 4) && ParseNat(Padded(n, 4)) == n
  {
    assert Pow10(2) == 100;
    assert Pow10(4) == 10000;
    PaddedWidth(n, 4);
    ParsePadded(n, 4);
  }

  /** Reading a printed amount gives it back, for every integer. */
  lemma ParseOfPrint(value: int)
    ensures Fixed4ToMinor(MinorToFixed4(value)) == Ok(value)
  {
    hide Trim, Padded, ToString, ParseNat, BeforeDot, AfterDot;
    var s := MinorToFixed4(value);
    var whole, places := ToString(Abs(value) / UNIT), Padded(Abs(value) % UNIT, 4);
    FourPlaces(Abs(value) % UNIT);
    ParseToString(Abs(value) / UNIT);
    assert s[0] == '-' || IsDigit(s[0]);
    assert s[|s| - 1] == places[3];
    TrimKeepsEnds(s);
    assert (if value < 0 then s[1..] else s) == whole + "." + places;
    assert value >= 0 ==> s[0] == whole[0];
    SplitAtDot(whole, places);
  }

  // ---- what the texts say

  /** The printed text: a minus for a negative amount, whole dinars without spare zeros, a dot and four places. */
  lemma PrintMeans(value: int) returns (whole: string, places: string)
    ensures MinorToFixed4(value) == (if value < 0 then "-" else "") + whole + "." + places
    ensures AllDigits(whole) && whole != [] && (|whole| == 1 || whole[0] != '0')
    ensures AllDigits(places) && |places| == 4
    ensures (if value < 0 then -value else value) == ParseNat(whole) * 10_000 + ParseNat(places)
  {
    hide Padded, ToString, ParseNat;
    whole, places := ToString(Abs(value) / UNIT), Padded(Abs(value) % UNIT, 4);
    FourPlaces(Abs(value) % UNIT);
    ParseToString(Abs(value) / UNIT);
    NoSpareZero(Abs(value) / UNIT);
  }

  lemma {:induction false} NoSpareZero(n: nat)
    ensures ToString(n) != [] && (|ToString(n)| == 1 || ToString(n)[0] != '0')
  {
    if n >= 10 { NoSpareZero(n / 10); }
  }

  lemma FilledUp(frac: string)
    requires |frac| <= 4
    ensures Frac4(frac) == frac + Zeros(4 - |frac|)
  {
    assert "0000" == Zeros(4);
  }

  /** The places of a fraction: filled up with zeros, or cut after the fourth. */
  lemma PlacesMean(frac: string)
    requires AllDigits(frac)
    ensures AllDigits(Frac4(frac))
    ensures |frac| <= 4 ==> ParseNat(Frac4(frac)) == ParseNat(frac) * Pow10(4 - |frac|)
    ensures |frac| > 4 ==> ParseNat(Frac4(frac)) == ParseNat(frac[..4])
  {
    hide ParseNat, Pow10, Frac4, AllDigits;
    if |frac| <= 4 {
      FilledUp(frac);
      ParseZeros(4 - |frac|);
      ParseConcat(frac, Zeros(4 - |frac|));
    } else {
      CutOff(frac);
    }
  }

  lemma CutOff(frac: string)
    requires AllDigits(frac) && |frac| > 4
    ensures Frac4(frac) == frac[..4] && AllDigits(frac[..4])
  {
  }

  /** Digits and a dot are not white space, and a digit is no minus. */
  lemma PointedEnds(whole: string, frac: string)
    requires AllDigits(whole) && AllDigits(frac)
    ensures
      var body := whole + "." + frac;
      body[0] != '-' && !IsSpace(body[0]) && !IsSpace(body[|body| - 1])
  {
    var body := whole + "." + frac;
    assert body[0] == '.' || IsDigit(body[0]);
    assert body[|body| - 1] == '.' || IsDigit(body[|body| - 1]);
  }

  lemma SignedBody(negative: bool, body: string)
    requires body != [] && body[0] != '-' && !IsSpace(body[0]) && !IsSpace(body[|body| - 1])
    ensures
      var s := SignText(negative) + body;
      s != [] && Trim(s) == s && (s[0] == '-' <==> negative) && (if negative then s[1..] else s) == body
  {
    hide Trim, IsSpace;
    var s := SignText(negative) + body;
    MinusIsNoSpace();
    assert s[|s| - 1] == body[|body| - 1];
    TrimKeepsEnds(s);
  }

  /** A numeral with a point is read as dinars and places, more than four of which are cut off. */
  lemma ParseMeans(negative: bool, whole: string, frac: string)
    requires AllDigits(whole) && AllDigits(frac)
    ensures
      var places := if |frac| <= 4 then ParseNat(frac) * Pow10(4 - |frac|) else ParseNat(frac[..4]);
      var m := ParseNat(whole) * 10_000 + places;
      Fixed4ToMinor(SignText(negative) + (whole + "." + frac)) == Ok(if negative then -m else m)
  {
    hide *;
    var body := whole + "." + frac;
    PointedEnds(whole, frac);
    SplitAtDot(whole, frac);
    PlacesMean(frac);
    ReadBody(negative, body, whole, frac);
  }

  lemma ReadBody(negative: bool, body: string, whole: string, frac: string)
    requires body != [] && body[0] != '-' && !IsSpace(body[0]) && !IsSpace(body[|body| - 1])
    requires BeforeDot(body) == whole && AfterDot(body) == frac && AllDigits(whole) && AllDigits(Frac4(frac))
    ensures
      var m := ParseNat(whole) * 10_000 + ParseNat(Frac4(frac));
      Fixed4ToMinor(SignText(negative) + body) == Ok(if negative then -m else m)
  {
    hide Trim, ParseNat, BeforeDot, AfterDot, Frac4, AllDigits, IsSpace, SignText;
    SignedBody(negative, body);
  }

  lemma MinusIsNoSpace()
    ensures !IsSpace('-')
  {
  }

  /** The texts MinorToFixed4 prints: no spare zeros, four places, no minus zero. */
  predicate IsCanonical(s: string) {
    var negative := s != [] && s[0] == '-';
    var body := if negative then s[1..] else s;
    && |body| >= 6
    && AllDigits(body[..|body| - 5]) && body[|body| - 5] == '.' && AllDigits(body[|body| - 4..])
    && (|body| == 6 || body[0] != '0')
    && (negative ==> body != "0.0000")
  }

  /** A numeral without spare zeros, a dot and four digits: read and printed again, it is itself. */
  lemma CanonicalParts(whole: string, places: string)
    requires AllDigits(whole) && AllDigits(places) && |whole| >= 1 && |places| == 4
    requires |whole| == 1 || whole[0] != '0'
    ensures
      var m := ParseNat(whole) * UNIT + ParseNat(places);
      && ToString(m / UNIT) == whole && Padded(m % UNIT, 4) == places
      && (m == 0 <==> whole == "0" && places == "0000")
  {
    hide Padded, ToString, ParseNat;
    ToStringParse(whole);
    ParseBound(places);
    assert Pow10(4) == 10000 by { assert Pow10(2) == 100; }
    PaddedParse(places, 4);
    var m := ParseNat(whole) * UNIT + ParseNat(places);
    assert m / UNIT == ParseNat(whole) && m % UNIT == ParseNat(places);
    ZeroText();
  }

  lemma ZeroText()
    ensures ToString(0) == "0" && ParseNat("0") == 0 && ParseNat("0000") == 0 && Padded(0, 4) == "0000"
  {
    assert ToString(0) == [DigitChar(0)];
    assert "0"[..0] == "" && "00"[..1] == "0" && "000"[..2] == "00" && "0000"[..3] == "000";
    assert Zeros(3) + "0" == "0000";
  }

  /** Printing what was read gives the text back exactly for the canonical texts. */
  lemma PrintOfParse(s: string)
    ensures (Fixed4ToMinor(s).Ok? && MinorToFixed4(Fixed4ToMinor(s).value) == s) <==> IsCanonical(s)
  {
    hide Fixed4ToMinor, MinorToFixed4, IsCanonical;
    if IsCanonical(s) {
      CanonicalReprints(s);
    } else if Fixed4ToMinor(s).Ok? {
      PrintIsCanonical(Fixed4ToMinor(s).value);
    }
  }

  /** The sign and the two parts of a canonical text. */
  lemma CanonicalSplit(s: string) returns (negative: bool, whole: string, places: string)
    requires IsCanonical(s)
    ensures s == SignText(negative) + (whole + "." + places)
    ensures AllDigits(whole) && AllDigits(places) && |whole| >= 1 && |places| == 4
    ensures |whole| == 1 || whole[0] != '0'
    ensures negative ==> whole + "." + places != "0.0000"
  {
    hide AllDigits;
    negative := s[0] == '-';
    var body := if negative then s[1..] else s;
    whole, places := body[..|body| - 5], body[|body| - 4..];
    assert body == whole + "." + places;
    assert SignText(negative) + body == s;
  }

  lemma EndsOfParts(negative: bool, whole: string, places: string)
    requires AllDigits(whole) && AllDigits(places) && |whole| >= 1 && |places| == 4
    ensures
      var s := SignText(negative) + (whole + "." + places);
      s != [] && !IsSpace(s[0]) && !IsSpace(s[|s| - 1]) && (s[0] == '-' <==> negative)
  {
    var clean := whole + "." + places;
    var s := SignText(negative) + clean;
    assert clean[0] == whole[0] && clean[|clean| - 1] == places[3];
    assert s[|s| - 1] == clean[|clean| - 1];
    assert IsDigit(whole[0]) && IsDigit(places[3]);
  }

  lemma ParseParts(negative: bool, whole: string, places: string)
    requires AllDigits(whole) && AllDigits(places) && |whole| >= 1 && |places| == 4
    ensures
      var m := ParseNat(whole) * UNIT + ParseNat(places);
      Fixed4ToMinor(SignText(negative) + (whole + "." + places)) == Ok(if negative then -m else m)
  {
    hide Trim, ParseNat, BeforeDot, AfterDot, AllDigits, IsSpace, Fixed4ToMinor;
    var clean := whole + "." + places;
    var s := SignText(negative) + clean;
    EndsOfParts(negative, whole, places);
    TrimKeepsEnds(s);
    assert (if negative then s[1..] else s) == clean;
    SplitAtDot(whole, places);
    assert Frac4(places) == places;
    ParseFrom(s, whole, places);
  }

  lemma ParseFrom(s: string, whole: string, places: string)
    requires AllDigits(whole) && AllDigits(places) && s != [] && Trim(s) == s
    requires
      var clean := if s[0] == '-' then s[1..] else s;
      BeforeDot(clean) == whole && Frac4(AfterDot(clean)) == places
    ensures
      var m := ParseNat(whole) * UNIT + ParseNat(places);
      Fixed4ToMinor(s) == Ok(if s[0] == '-' then -m else m)
  {
    hide Trim, ParseNat, BeforeDot, AfterDot, AllDigits, Frac4;
  }

  lemma CanonicalReprints(s: string)
    requires IsCanonical(s)
    ensures Fixed4ToMinor(s).Ok? && MinorToFixed4(Fixed4ToMinor(s).value) == s
  {
    hide Trim, Padded, ToString, ParseNat, BeforeDot, AfterDot, Fixed4ToMinor, IsCanonical, AllDigits;
    var negative, whole, places := CanonicalSplit(s);
    ParseParts(negative, whole, places);
    CanonicalParts(whole, places);
    assert whole == "0" && places == "0000" ==> whole + "." + places == "0.0000";
    assert SignText(negative) + whole + "." + places == SignText(negative) + (whole + "." + places);
  }

  lemma PrintIsCanonical(value: int)
    ensures IsCanonical(MinorToFixed4(value))
  {
    hide Padded, ToString;
    var whole, places := ToString(Abs(value) / UNIT), Padded(Abs(value) % UNIT, 4);
    var body := whole + "." + places;
    FourPlaces(Abs(value) % UNIT);
    assert body[..|body| - 5] == whole && body[|body| - 4..] == places;
    ToStringLeading(Abs(value) / UNIT);
    WholeWidth(Abs(value) / UNIT);
    ZeroText();
    ParseToString(Abs(value) / UNIT);
    assert value != 0 ==> whole != "0" || places != "0000";
    assert body == "0.0000" ==> body[..1] == "0" && body[2..] == "0000";
    if value < 0 {
      assert MinorToFixed4(value)[1..] == body;
    } else {
      assert MinorToFixed4(value) == body;
    }
  }

  lemma WholeWidth(n: nat)
    ensures n == 0 ==> |ToString(n)| == 1
  {
  }

  // ---- sums

  function SumMinor(values: seq<int>): int {
    if values == [] then 0 else SumMinor(values[..|values| - 1]) + values[|values| - 1]
  }

  function PrintAll(values: seq<int>): (texts: seq<string>)
    ensures |texts| == |values| && forall i :: 0 <= i < |values| ==> texts[i] == MinorToFixed4(values[i])
  {
    seq(|values|, i requires 0 <= i < |values| => MinorToFixed4(values[i]))
  }

  /** The sum of the amounts the texts stand for; an unreadable one is an error. */
  function SumTexts(texts: seq<string>): Result<int, ParseError> {
    if texts == [] then Ok(0)
    else
      match (SumTexts(texts[..|texts| - 1]), Fixed4ToMinor(texts[|texts| - 1]))
      case (Ok(a), Ok(b)) => Ok(a + b)
      case _ => Err(NotANumber)
  }

  method SumFixed4(texts: seq<string>) returns (r: Result<string, ParseError>)
    ensures r == match SumTexts(texts) case Ok(total) => Ok(MinorToFixed4(total)) case Err(e) => Err(e)
  {
    hide MinorToFixed4, Fixed4ToMinor;
    var total := 0;
    var i := 0;
    while i < |texts|
      invariant 0 <= i <= |texts|
      invariant SumTexts(texts[..i]) == Ok(total)
    {
      var m := Fixed4ToMinor(texts[i]);
      assert texts[..i + 1][..i] == texts[..i];
      if m.Err? {
        ErrorStays(texts, i + 1);
        return Err(NotANumber);
      }
      total := total + m.value;
      i := i + 1;
    }
    assert texts[..i] == texts;
    return Ok(MinorToFixed4(total));
  }

  lemma {:induction false} ErrorStays(texts: seq<string>, i: nat)
    requires i <= |texts| && SumTexts(texts[..i]).Err?
    ensures SumTexts(texts).Err?
  {
    if i == |texts| {
      assert texts[..i] == texts;
    } else {
      assert texts[..|texts| - 1][..i] == texts[..i];
      ErrorStays(texts[..|texts| - 1], i);
    }
  }

  /** Adding printed amounts is adding the amounts. */
  lemma {:induction false} SumOfPrinted(values: seq<int>)
    ensures SumTexts(PrintAll(values)) == Ok(SumMinor(values))
  {
    hide MinorToFixed4, Fixed4ToMinor;
    if values != [] {
      var n := |values| - 1;
      SumOfPrinted(values[..n]);
      ParseOfPrint(values[n]);
      assert PrintAll(values)[..n] == PrintAll(values[..n]);
    }
  }

  lemma {:induction false} SumMinorConcat(a: seq<int>, b: seq<int>)
    ensures SumMinor(a + b) == SumMinor(a) + SumMinor(b)
  {
    if b == [] {
      assert a + b == a;
    } else {
      SumMinorConcat(a, b[..|b| - 1]);
      assert (a + b)[..|a + b| - 1] == a + b[..|b| - 1];
    }
  }

  lemma SumMinorSnoc(a: seq<int>, x: int)
    ensures SumMinor(a + [x]) == SumMinor(a) + x
  {
    assert (a + [x])[..|a|] == a;
  }

  lemma MembersWithoutOne(b: seq<int>, j: nat)
    requires j < |b|
    ensures multiset(b) == multiset(b[..j] + b[j + 1..]) + multiset{b[j]}
  {
    assert b == b[..j] + [b[j]] + b[j + 1..];
  }

  lemma SumWithoutOne(b: seq<int>, j: nat)
    requires j < |b|
    ensures SumMinor(b) == SumMinor(b[..j] + b[j + 1..]) + b[j]
  {
    hide SumMinor;
    var front, back := b[..j], b[j + 1..];
    assert b == (front + [b[j]]) + back;
    SumMinorConcat(front + [b[j]], back);
    SumMinorConcat(front, back);
    SumMinorSnoc(front, b[j]);
  }

  lemma CancelOne<T(!new)>(a: multiset<T>, b: multiset<T>, x: T)
    requires a + multiset{x} == b + multiset{x}
    ensures a == b
  {
    forall y ensures a[y] == b[y] {
      assert (a + multiset{x})[y] == (b + multiset{x})[y];
    }
  }

  /** The total does not depend on the order. */
  lemma {:induction false} SumMinorPermutation(a: seq<int>, b: seq<int>)
    requires multiset(a) == multiset(b)
    ensures SumMinor(a) == SumMinor(b)
    decreases |a|
  {
    hide SumMinor;
    if a == [] {
      assert |multiset(b)| == 0;
      assert b == [];
    } else {
      var n := |a| - 1;
      assert a[n] in multiset(b);
      var j :| 0 <= j < |b| && b[j] == a[n];
      var x, y := a[..n] + a[n + 1..], b[..j] + b[j + 1..];
      MembersWithoutOne(a, n);
      MembersWithoutOne(b, j);
      CancelOne(multiset(x), multiset(y), a[n]);
      SumMinorPermutation(x, y);
      SumWithoutOne(a, n);
      SumWithoutOne(b, j);
    }
  }
}
