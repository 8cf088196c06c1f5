/**
 * One-time codes: the counter buffer and dynamic truncation of RFC 4226 (section 5.3), the time step
 * and the drift window of RFC 6238 (sections 4 and 5.2). HMAC-SHA-1 is any function to 20 bytes.
 */
module Totp {
  import opened Wrappers
  import opened Division
  import opened Words
  import opened DecimalText
  import opened Whitespace
  import Base32

  type Digest = s: seq<byte> | |s| == 20 witness seq(20, _ => 0)

  type HmacFn = (seq<byte>, seq<byte>) -> Digest

  datatype TotpError = InvalidSecret | CounterOutOfRange

  const COUNTER_LIMIT := WORD * WORD

  // ---- big-endian bytes

  function FromBigEndian(b: seq<byte>): nat {
    if b == [] then 0 else 256 * FromBigEndian(b[..|b| - 1]) + b[|b| - 1]
  }

  function Four(a: nat, b: nat, c: nat, d: nat): nat {
    0x100_0000 * a + 0x1_0000 * b + 0x100 * c + d
  }

  function WriteUInt32BE(v: word): (b: seq<byte>)
    ensures |b| == 4
  {
    [v / 0x100_0000, v / 0x1_0000 % 256, v / 256 % 256, v % 256]
  }

  /** The high word, then the low word of the counter. */
  function CounterBuffer(counter: nat): (b: seq<byte>)
    requires counter < COUNTER_LIMIT
    ensures |b| == 8
  {
    WriteUInt32BE(counter / WORD) + WriteUInt32BE(counter % WORD)
  }

  lemma BigEndianSnoc(a: seq<byte>, x: byte)
    ensures FromBigEndian(a + [x]) == 256 * FromBigEndian(a) + x
  {
    assert (a + [x])[..|a|] == a;
  }

  lemma BigEndianFour(a: seq<byte>, b: seq<byte>)
    requires |b| == 4
    ensures FromBigEndian(a + b) == WORD * FromBigEndian(a) + Four(b[0], b[1], b[2], b[3])
  {
    BigEndianSnoc(a, b[0]);
    BigEndianSnoc(a + [b[0]], b[1]);
    BigEndianSnoc(a + [b[0]] + [b[1]], b[2]);
    BigEndianSnoc(a + [b[0]] + [b[1]] + [b[2]], b[3]);
    assert a + b == a + [b[0]] + [b[1]] + [b[2]] + [b[3]];
  }

  lemma WordBytes(v: word)
    ensures Four(v / 0x100_0000, v / 0x1_0000 % 256, v / 256 % 256, v % 256) == v
  {
    assert v / 0x1_0000 == v / 256 / 256 && v / 0x100_0000 == v / 256 / 256 / 256;
  }

  /** The moving factor is the 8-byte big-endian counter, for every counter a double can hold exactly. */
  lemma CounterBufferIsBigEndian(counter: nat)
    requires counter < COUNTER_LIMIT
    ensures FromBigEndian(CounterBuffer(counter)) == counter
  {
    var high, low := counter / WORD, counter % WORD;
    WordBytes(high);
    WordBytes(low);
    BigEndianFour([], WriteUInt32BE(high));
    assert [] + WriteUInt32BE(high) == WriteUInt32BE(high);
    BigEndianFour(WriteUInt32BE(high), WriteUInt32BE(low));
  }

  // ---- dynamic truncation

  /** Four bytes from the offset in the last nibble, without the sign bit. */
  function Truncate(d: Digest): word {
    var offset := OffsetOf(d);
    Assemble(d[offset], d[offset + 1], d[offset + 2], d[offset + 3])
  }

  function OffsetOf(d: Digest): (o: nat)
    ensures o <= 15
  {
    BitAnd(d[19], 0x0f)
  }

  lemma OffsetIsLastNibble(d: Digest)
    ensures OffsetOf(d) == d[19] % 16
  {
    AndNibble(d[19]);
  }

  function Assemble(a: byte, b: byte, c: byte, d: byte): word {
    Join(BitAnd(a, 0x7f), BitAnd(b, 0xff), BitAnd(c, 0xff), BitAnd(d, 0xff))
  }

  function Join(a: byte, b: byte, c: byte, d: byte): word {
    BitOr31(BitOr31(BitOr31(Shl(a, 24), Shl(b, 16)), Shl(c, 8)), d)
  }

  function BitOr31(x: word, y: word): word {
    WordIsPow2();
    OrBelow(x, y, 32);
    BitOr(x, y)
  }

  lemma AndStep(x: nat, m: nat)
    ensures BitAnd(x, 2 * m + 1) == 2 * BitAnd(x / 2, m) + x % 2
  {
    assert (2 * m + 1) / 2 == m && (2 * m + 1) % 2 == 1;
  }

  /** A mask of k ones takes the remainder by 2^k. */
  lemma {:induction false} AndMask(x: nat, k: nat)
    ensures BitAnd(x, Pow2(k) - 1) == x % Pow2(k)
  {
    hide BitAnd, Pow2;
    if k == 0 {
      OneWeight();
      AndNothing(x);
    } else {
      NextWeight(1, k);
      AndStep(x, Pow2(k - 1) - 1);
      AndMask(x / 2, k - 1);
      ModStep(x, Pow2(k - 1));
    }
  }

  lemma AndNothing(x: nat)
    ensures BitAnd(x, 0) == 0 && x % 1 == 0
  {
  }

  lemma ModStep(x: nat, m: nat)
    requires m > 0
    ensures x % (2 * m) == 2 * (x / 2 % m) + x % 2
  {
    var q, r := x / 2 / m, x / 2 % m;
    assert x / 2 == q * m + r;
    assert x == 2 * (x / 2) + x % 2;
    assert 2 * (q * m) == q * (2 * m);
    QuotientIs(x, 2 * m, q, 2 * r + x % 2);
  }

  lemma AndNibble(x: nat)
    ensures BitAnd(x, 0x0f) == x % 16
  {
    hide BitAnd;
    AndMask(x, 4);
    assert Pow2(4) == 16;
  }

  lemma AndSevenBits(x: nat)
    ensures BitAnd(x, 0x7f) == x % 128
  {
    hide BitAnd;
    AndMask(x, 7);
    assert Pow2(4) == 16;
    assert Pow2(7) == 128;
  }

  lemma AndByte(x: nat)
    ensures BitAnd(x, 0xff) == x % 256
  {
    hide BitAnd, Pow2;
    AndMask(x, 8);
    Pow2Values();
  }

  lemma ByteUnmasked(x: byte)
    ensures BitAnd(x, 0xff) == x
  {
    hide BitAnd;
    AndByte(x);
  }

  lemma {:induction false} OrZero(x: nat)
    ensures BitOr(x, 0) == x
  {
    if x > 0 { OrZero(x / 2); }
  }

  lemma {:induction false} OrDisjoint(x: nat, y: nat, k: nat)
    requires y < Pow2(k)
    ensures BitOr(x * Pow2(k), y) == x * Pow2(k) + y
  {
    hide BitOr, Pow2;
    if k == 0 {
      OrZero(x);
      OneWeight();
    } else {
      NextWeight(x, k);
      var z := x * Pow2(k - 1);
      OrDisjoint(x, y / 2, k - 1);
      OrDouble(z, y);
    }
  }

  lemma OneWeight()
    ensures Pow2(0) == 1
  {
  }

  lemma NextWeight(x: nat, k: nat)
    requires k > 0
    ensures Pow2(k) == 2 * Pow2(k - 1) && x * Pow2(k) == 2 * (x * Pow2(k - 1))
  {
    var p := Pow2(k - 1);
    assert Pow2(k) == 2 * p;
    assert x * (2 * p) == 2 * (x * p);
  }

  lemma OrDouble(z: nat, y: nat)
    ensures BitOr(2 * z, y) == 2 * BitOr(z, y / 2) + y % 2
  {
  }

  lemma MoveFactor(x: nat, p: nat)
    requires p >= 1
    ensures x * (2 * p) == (2 * x) * p >= 2 * x
  {
  }

  lemma {:induction false} ShlInside(x: word, k: nat)
    requires x * Pow2(k) < WORD
    ensures Shl(x, k) == x * Pow2(k)
    decreases k
  {
    hide Shl, Pow2;
    if k == 0 {
      OneWeight();
      ShlNothing(x);
    } else {
      var p := Pow2(k - 1);
      NextWeight(x, k);
      MoveFactor(x, p);
      ShlInside(2 * x, k - 1);
      ShlStep(x, k);
    }
  }

  lemma ShlNothing(x: word)
    ensures Shl(x, 0) == x
  {
  }

  lemma ShlStep(x: word, k: nat)
    requires k > 0 && 2 * x < WORD
    ensures Shl(x, k) == Shl(2 * x, k - 1)
  {
  }

  lemma Pow2Values()
    ensures Pow2(8) == 0x100 && Pow2(16) == 0x1_0000 && Pow2(24) == 0x100_0000
  {
    assert Pow2(8) == 0x100;
    assert Pow2(16) == 0x1_0000;
  }

  lemma Joined(p: nat, q: nat, r: nat, s: nat)
    requires p < 128 && q < 256 && r < 256 && s < 256
    ensures Join(p, q, r, s) == Four(p, q, r, s)
  {
    hide Shl, BitOr, Pow2;
    Pow2Values();
    assert Shl(p, 24) == p * 0x100_0000 by { ShlInside(p, 24); }
    assert Shl(q, 16) == q * 0x1_0000 by { ShlInside(q, 16); }
    assert Shl(r, 8) == r * 0x100 by { ShlInside(r, 8); }
    var x := p * 0x100 + q;
    assert BitOr(p * 0x100_0000, q * 0x1_0000) == x * 0x1_0000 by { OrDisjoint(p, q * 0x1_0000, 24); }
    assert BitOr(x * 0x1_0000, r * 0x100) == (x * 0x100 + r) * 0x100 by { OrDisjoint(x, r * 0x100, 16); }
    OrDisjoint(x * 0x100 + r, s, 8);
  }

  lemma AssembleIsFour(a: byte, b: byte, c: byte, d: byte)
    ensures Assemble(a, b, c, d) == Four(a % 128, b, c, d)
  {
    assert BitAnd(a, 0x7f) == a % 128 by { AndSevenBits(a); }
    assert BitAnd(b, 0xff) == b by { ByteUnmasked(b); }
    assert BitAnd(c, 0xff) == c by { ByteUnmasked(c); }
    assert BitAnd(d, 0xff) == d by { ByteUnmasked(d); }
    assert Join(a % 128, b, c, d) == Four(a % 128, b, c, d) by { Joined(a % 128, b, c, d); }
  }

  /**
   * The bit operations compute what section 5.3 of RFC 4226 defines: the four bytes at the offset,
   * read as a big-endian number without its top bit. The offset never leaves the digest.
   */
  lemma TruncateIsStandard(d: Digest)
    ensures d[19] % 16 + 4 <= 20
    ensures Truncate(d) == FromBigEndian(d[d[19] % 16..d[19] % 16 + 4]) % 0x8000_0000
    ensures Truncate(d) < 0x8000_0000
  {
    OffsetIsLastNibble(d);
    var o := OffsetOf(d);
    var four := d[o..o + 4];
    assert Truncate(d) == Four(four[0] % 128, four[1], four[2], four[3]) by {
      AssembleIsFour(four[0], four[1], four[2], four[3]);
    }
    assert FromBigEndian(four) == Four(four[0], four[1], four[2], four[3]) by {
      BigEndianFour([], four);
      assert [] + four == four;
    }
    DropTopBit(four[0], four[1], four[2], four[3]);
  }

  lemma DropTopBit(p: nat, q: nat, r: nat, s: nat)
    requires p < 256 && q < 256 && r < 256 && s < 256
    ensures Four(p % 128, q, r, s) == Four(p, q, r, s) % 0x8000_0000
  {
    assert p == 128 * (p / 128) + p % 128;
    assert Four(p, q, r, s) == (p / 128) * 0x8000_0000 + Four(p % 128, q, r, s);
    QuotientIs(Four(p, q, r, s), 0x8000_0000, p / 128, Four(p % 128, q, r, s));
  }

  // ---- codes

  function Code(hmac: HmacFn, key: seq<byte>, counter: nat, digits: nat): string
    requires counter < COUNTER_LIMIT
  {
    Padded(Truncate(hmac(key, CounterBuffer(counter))) % Pow10(digits), digits)
  }

  /** The buffer cannot hold a negative counter. */
  function Hotp(hmac: HmacFn, key: seq<byte>, counter: int, digits: nat): Result<string, TotpError> {
    if 0 <= counter < COUNTER_LIMIT then Ok(Code(hmac, key, counter, digits)) else Err(CounterOutOfRange)
  }

  function StepOf(atMs: int, step: nat): int
    requires step > 0
  {
    atMs / (1000 * step)
  }

  function GenerateTotp(hmac: HmacFn, secret: string, atMs: int, step: nat, digits: nat): Result<string, TotpError>
    requires step > 0
  {
    match Base32.Decode(secret)
    case Err(_) => Err(InvalidSecret)
    case Ok(key) => Hotp(hmac, key, StepOf(atMs, step), digits)
  }

  /** Every code has the asked-for number of decimal digits; a width of zero still prints one. */
  lemma CodeWidth(hmac: HmacFn, key: seq<byte>, counter: nat, digits: nat)
    requires counter < COUNTER_LIMIT
    ensures AllDigits(Code(hmac, key, counter, digits))
    ensures |Code(hmac, key, counter, digits)| == if digits == 0 then 1 else digits
  {
    var n := Truncate(hmac(key, CounterBuffer(counter))) % Pow10(digits);
    if digits > 0 {
      PaddedWidth(n, digits);
    } else {
      assert Pow10(0) == 1 && n == 0 && ToString(0) == [DigitChar(0)];
    }
  }

  predicate WellFormed(normalized: string, digits: nat) {
    normalized != [] && AllDigits(normalized) && |normalized| == digits
  }

  /** The candidate is one of the 2 * window + 1 codes around the current step. */
  ghost predicate InWindow(
      hmac: HmacFn, key: seq<byte>, normalized: string, base: int, window: int, digits: nat) {
    exists c: int :: base - window <= c <= base + window && Hotp(hmac, key, c, digits) == Ok(normalized)
  }

  /**
   * What verification answers once the form of the candidate and the secret are accepted: it fails where the
   * window starts below zero, else finds the candidate if it is there, else fails where the window leaves the range.
   */
  ghost predicate WindowAnswer(
      hmac: HmacFn, key: seq<byte>, normalized: string, base: int, window: int, digits: nat, r: Result<bool, TotpError>) {
    r == if window >= 0 && base < window then Err(CounterOutOfRange)
         else if InWindow(hmac, key, normalized, base, window, digits) then Ok(true)
         else if window >= 0 && base + window >= COUNTER_LIMIT then Err(CounterOutOfRange)
         else Ok(false)
  }

  method VerifyTotp(
      hmac: HmacFn, secret: string, candidate: string, atMs: int, step: nat, digits: nat, window: int)
    returns (r: Result<bool, TotpError>)
    requires step > 0
    ensures !WellFormed(RemoveSpaces(candidate), digits) ==> r == Ok(false)
    ensures WellFormed(RemoveSpaces(candidate), digits) ==>
      if Base32.Decode(secret).Err? then r == Err(InvalidSecret)
      else WindowAnswer(hmac, Base32.Decode(secret).value, RemoveSpaces(candidate),
                        StepOf(atMs, step), window, digits, r)
  {
    var normalized := RemoveSpaces(candidate);
    if !WellFormed(normalized, digits) {
      return Ok(false);
    }
    var secretBytes := Base32.Base32Decode(secret);
    if secretBytes.Err? {
      return Err(InvalidSecret);
    }
    var key := secretBytes.value;
    var base := StepOf(atMs, step);
    var codeAt := c => Hotp(hmac, key, c, digits);
    r := ScanWindow(codeAt, normalized, base, window);
    ScanAnswers(hmac, key, normalized, base, window, digits, codeAt, r);
  }

  /** Codes that neither fail nor match. */
  ghost predicate Passed(codeAt: int -> Result<string, TotpError>, normalized: string, from: int, to: int) {
    forall c: int :: from <= c < to ==> codeAt(c).Ok? && codeAt(c).value != normalized
  }

  /** The first step of the window that fails or matches decides. */
  ghost predicate Scanned(
      codeAt: int -> Result<string, TotpError>, normalized: string, base: int, window: int, r: Result<bool, TotpError>) {
    match r
    case Err(e) =>
      exists c: int :: base - window <= c <= base + window && codeAt(c) == Err(e) && Passed(codeAt, normalized, base - window, c)
    case Ok(true) =>
      exists c: int :: base - window <= c <= base + window && codeAt(c) == Ok(normalized) && Passed(codeAt, normalized, base - window, c)
    case Ok(false) => Passed(codeAt, normalized, base - window, base + window + 1)
  }

  lemma ScanAnswers(
      hmac: HmacFn, key: seq<byte>, normalized: string, base: int, window: int, digits: nat,
      codeAt: int -> Result<string, TotpError>, r: Result<bool, TotpError>)
    requires forall c :: codeAt(c) == Hotp(hmac, key, c, digits)
    requires Scanned(codeAt, normalized, base, window, r)
    ensures WindowAnswer(hmac, key, normalized, base, window, digits, r)
  {
    match r
    case Err(e) =>
      var c: int :| base - window <= c <= base + window && codeAt(c) == Err(e) && Passed(codeAt, normalized, base - window, c);
      if base >= window { NotBeforeFailure(hmac, key, normalized, base, window, digits, codeAt, c); }
    case Ok(true) =>
      var c: int :| base - window <= c <= base + window && codeAt(c) == Ok(normalized) && Passed(codeAt, normalized, base - window, c);
      StartsInside(hmac, key, normalized, base - window, c, digits, codeAt);
    case Ok(false) =>
      if window >= 0 { NotInWindow(hmac, key, normalized, base, window, digits, codeAt); }
  }

  /** A scan that ends with a match has passed, or matched at, its first step. */
  lemma StartsInside(
      hmac: HmacFn, key: seq<byte>, normalized: string, from: int, c: int, digits: nat, codeAt: int -> Result<string, TotpError>)
    requires forall c :: codeAt(c) == Hotp(hmac, key, c, digits)
    requires from <= c && codeAt(c) == Ok(normalized) && Passed(codeAt, normalized, from, c)
    ensures from >= 0
  {
    hide Code;
    assert codeAt(from).Ok?;
  }

  /** No code of the window after a failing counter exists, and none before it matches. */
  lemma NotBeforeFailure(
      hmac: HmacFn, key: seq<byte>, normalized: string, base: int, window: int, digits: nat,
      codeAt: int -> Result<string, TotpError>, c: int)
    requires forall c :: codeAt(c) == Hotp(hmac, key, c, digits)
    requires 0 <= base - window <= c && codeAt(c).Err? && Passed(codeAt, normalized, base - window, c)
    ensures !InWindow(hmac, key, normalized, base, window, digits) && c >= COUNTER_LIMIT
  {
    hide Code;
    forall d: int | base - window <= d <= base + window ensures Hotp(hmac, key, d, digits) != Ok(normalized) {
      assert codeAt(d) == Hotp(hmac, key, d, digits);
    }
  }

  lemma NotInWindow(
      hmac: HmacFn, key: seq<byte>, normalized: string, base: int, window: int, digits: nat,
      codeAt: int -> Result<string, TotpError>)
    requires forall c :: codeAt(c) == Hotp(hmac, key, c, digits)
    requires window >= 0 && Passed(codeAt, normalized, base - window, base + window + 1)
    ensures !InWindow(hmac, key, normalized, base, window, digits)
    ensures 0 <= base - window && base + window < COUNTER_LIMIT
  {
    hide Code;
    assert codeAt(base - window).Ok? && codeAt(base + window).Ok?;
    forall d: int | base - window <= d <= base + window ensures Hotp(hmac, key, d, digits) != Ok(normalized) {
      assert codeAt(d) == Hotp(hmac, key, d, digits);
    }
  }

  /** The loop of the verification. */
  method ScanWindow(codeAt: int -> Result<string, TotpError>, normalized: string, base: int, window: int)
    returns (r: Result<bool, TotpError>)
    ensures Scanned(codeAt, normalized, base, window, r)
  {
    var errorWindow := -window;
    while errorWindow <= window
      invariant errorWindow >= -window
      invariant Passed(codeAt, normalized, base - window, base + errorWindow)
      decreases window - errorWindow
    {
      var expected := codeAt(base + errorWindow);
      if expected.Err? {
        return Err(expected.error);
      }
      if expected.value == normalized {
        return Ok(true);
      }
      errorWindow := errorWindow + 1;
    }
    return Ok(false);
  }

  /** A well-formed candidate is never rejected for its form: any real code passes the first check. */
  lemma CodesAreWellFormed(hmac: HmacFn, key: seq<byte>, counter: nat, digits: nat)
    requires counter < COUNTER_LIMIT
    ensures WellFormed(Code(hmac, key, counter, digits), digits) <==> digits >= 1
  {
    CodeWidth(hmac, key, counter, digits);
  }

  /**
   * A code generated at one time is in the window at another time whenever the two step numbers
   * differ by at most the window, and it passes the form check, however it is spaced.
   */
  lemma GeneratedCodeIsInWindow(
      hmac: HmacFn, secret: string, candidate: string, t: int, now: int, step: nat, digits: nat, window: int)
    requires step > 0 && digits >= 1
    requires GenerateTotp(hmac, secret, t, step, digits).Ok?
    requires RemoveSpaces(candidate) == GenerateTotp(hmac, secret, t, step, digits).value
    requires -window <= StepOf(t, step) - StepOf(now, step) <= window
    ensures WellFormed(RemoveSpaces(candidate), digits)
    ensures InWindow(hmac, Base32.Decode(secret).value, RemoveSpaces(candidate), StepOf(now, step), window, digits)
  {
    var key := Base32.Decode(secret).value;
    CodesAreWellFormed(hmac, key, StepOf(t, step), digits);
    assert Hotp(hmac, key, StepOf(t, step), digits) == Ok(RemoveSpaces(candidate));
  }

  // ---- the code as the two standards define it

  /** Eight bytes as one number, the most significant first. */
  function Number64(b: seq<byte>): nat
    requires |b| == 8
  {
    Four(b[0], b[1], b[2], b[3]) * 0x1_0000_0000 + Four(b[4], b[5], b[6], b[7])
  }

  /** The four bytes at the offset the last nibble names, without the top bit. */
  function Truncated(d: Digest): nat {
    var o := d[19] % 16;
    Four(d[o] % 128, d[o + 1], d[o + 2], d[o + 3])
  }

  lemma BufferIsNumber64(counter: nat)
    requires counter < COUNTER_LIMIT
    ensures Number64(CounterBuffer(counter)) == counter
  {
    var b := CounterBuffer(counter);
    WordBytes(counter / WORD);
    WordBytes(counter % WORD);
    assert Four(b[0], b[1], b[2], b[3]) == counter / WORD;
    assert Four(b[4], b[5], b[6], b[7]) == counter % WORD;
  }

  lemma TruncateIsTruncated(d: Digest)
    ensures Truncate(d) == Truncated(d)
  {
    hide Assemble;
    OffsetIsLastNibble(d);
    var o := OffsetOf(d);
    AssembleIsFour(d[o], d[o + 1], d[o + 2], d[o + 3]);
  }

  /**
   * A code is the truncated digest of the eight-byte counter, reduced to the asked-for number of decimal
   * digits and printed with all of them.
   */
  lemma CodeIsStandard(hmac: HmacFn, key: seq<byte>, counter: nat, digits: nat) returns (b: seq<byte>)
    requires counter < COUNTER_LIMIT && digits >= 1
    ensures |b| == 8 && Number64(b) == counter
    ensures Hotp(hmac, key, counter, digits).Ok?
    ensures
      var code := Hotp(hmac, key, counter, digits).value;
      |code| == digits && AllDigits(code) && ParseNat(code) == Truncated(hmac(key, b)) % Pow10(digits)
  {
    hide Truncate, Truncated, CounterBuffer, Number64, Pow10, Padded;
    b := CounterBuffer(counter);
    BufferIsNumber64(counter);
    TruncateIsTruncated(hmac(key, b));
    CodeWidth(hmac, key, counter, digits);
    ParsePadded(Truncate(hmac(key, b)) % Pow10(digits), digits);
  }

  lemma SixDigits()
    ensures Pow10(6) == 1_000_000
  {
    assert Pow10(3) == 1000;
    assert Pow10(6) == 10 * (10 * (10 * Pow10(3)));
  }

  /** The step is the number of whole steps since the epoch. */
  lemma StepMeans(atMs: int, step: nat, k: int)
    requires step > 0
    ensures StepOf(atMs, step) == k <==> k * (1000 * step) <= atMs < (k + 1) * (1000 * step)
  {
    var n := 1000 * step;
    Distribute(k, 1, n);
    if k * n <= atMs < (k + 1) * n { QuotientIs(atMs, n, k, atMs - k * n); }
    if atMs / n == k { assert atMs == k * n + atMs % n; }
  }

  /** What GenerateTotp computes for a readable secret: the standard code of the current step. */
  lemma GenerateMeans(hmac: HmacFn, secret: string, atMs: int, step: nat, digits: nat) returns (k: int)
    requires step > 0 && Base32.Decode(secret).Ok?
    ensures k * (1000 * step) <= atMs < (k + 1) * (1000 * step)
    ensures GenerateTotp(hmac, secret, atMs, step, digits) == Hotp(hmac, Base32.Decode(secret).value, k, digits)
  {
    hide Hotp;
    k := StepOf(atMs, step);
    StepMeans(atMs, step, k);
  }

  /**
   * What was generated at one time verifies at another, whenever the steps are at most the window apart;
   * it fails only where the window reaches below the first step.
   */
  method VerifyGenerated(
      hmac: HmacFn, secret: string, candidate: string, t: int, now: int, step: nat, digits: nat, window: int)
    returns (r: Result<bool, TotpError>)
    requires step > 0 && digits >= 1
    requires GenerateTotp(hmac, secret, t, step, digits) == Ok(RemoveSpaces(candidate))
    requires -window <= StepOf(t, step) - StepOf(now, step) <= window
    ensures r == if StepOf(now, step) < window then Err(CounterOutOfRange) else Ok(true)
  {
    hide *;
    r := VerifyTotp(hmac, secret, candidate, now, step, digits, window);
    VerifiesGenerated(hmac, secret, candidate, t, now, step, digits, window, r);
  }

  lemma VerifiesGenerated(
      hmac: HmacFn, secret: string, candidate: string, t: int, now: int, step: nat, digits: nat, window: int,
      r: Result<bool, TotpError>)
    requires step > 0 && digits >= 1
    requires GenerateTotp(hmac, secret, t, step, digits) == Ok(RemoveSpaces(candidate))
    requires -window <= StepOf(t, step) - StepOf(now, step) <= window
    requires WellFormed(RemoveSpaces(candidate), digits) ==>
      if Base32.Decode(secret).Err? then r == Err(InvalidSecret)
      else WindowAnswer(hmac, Base32.Decode(secret).value, RemoveSpaces(candidate), StepOf(now, step), window, digits, r)
    ensures r == if StepOf(now, step) < window then Err(CounterOutOfRange) else Ok(true)
  {
    hide Hotp, StepOf, WellFormed, InWindow, Base32.Decode;
    GeneratedCodeIsInWindow(hmac, secret, candidate, t, now, step, digits, window);
  }

  /** Within one step of drift either way (the default window), steps are at most a window apart. */
  lemma DriftStaysInWindow(t: int, now: int, step: nat, window: int)
    requires step > 0 && window >= 0
    requires -(window * (1000 * step)) <= t - now <= window * (1000 * step)
    ensures -window <= StepOf(t, step) - StepOf(now, step) <= window
  {
    StepsApart(t, now, 1000 * step, window);
  }

  lemma StepsApart(t: int, now: int, m: int, window: int)
    requires m > 0 && -(window * m) <= t - now <= window * m
    ensures now / m - window <= t / m <= now / m + window
  {
    FloorShift(now, window, m);
    FloorShift(now, -window, m);
    FloorMonotone(t, now + window * m, m);
    FloorMonotone(now + -window * m, t, m);
  }
}
