/**
 * Base32 (section 6 of RFC 4648, without padding): the two bit-accumulator loops over wrapping
 * 32-bit words, and the unbounded bit stream they stand for.
 */
module Base32 {
  import opened Wrappers
  import opened Whitespace
  import opened Words

  const ALPHABET := "ABCDEFGHIJKLMNOPQRSTUVWXYZ234567"

  datatype DecodeError = InvalidCharacter

  // ---- the alphabet

  function CharOf(v: nat): char
    requires v < 32
  {
    if v < 26 then ('A' as int + v) as char else ('2' as int + v - 26) as char
  }

  /** The position of c in the alphabet, as indexOf finds it. */
  function IndexOf(c: char): (r: Option<nat>)
    ensures r.Some? ==> r.value < 32 && CharOf(r.value) == c
  {
    if 'A' <= c <= 'Z' then Some(c as int - 'A' as int)
    else if '2' <= c <= '7' then Some(c as int - '2' as int + 26)
    else None
  }

  lemma IndexOfCharOf(v: nat)
    requires v < 32
    ensures IndexOf(CharOf(v)) == Some(v)
  {
  }

  lemma Letters(v: nat)
    requires v < 32
    ensures |ALPHABET| == 32 && ALPHABET[v] == CharOf(v)
  {
  }

  /** The two functions read the table: the character at a position, and the one position of a character. */
  lemma AlphabetTable(c: char, v: nat)
    ensures |ALPHABET| == 32
    ensures v < 32 ==> ALPHABET[v] == CharOf(v)
    ensures IndexOf(c) == Some(v) <==> v < |ALPHABET| && ALPHABET[v] == c
    ensures IndexOf(c).Some? <==> c in ALPHABET
  {
    hide ALPHABET, IndexOf, CharOf;
    Letters(0);
    forall i: nat | i < 32 ensures |ALPHABET| == 32 && ALPHABET[i] == CharOf(i) && IndexOf(ALPHABET[i]) == Some(i) {
      Letters(i);
      IndexOfCharOf(i);
    }
    if IndexOf(c).Some? { assert ALPHABET[IndexOf(c).value] == c; }
  }

  predicate InAlphabet(s: string) {
    forall i :: 0 <= i < |s| ==> IndexOf(s[i]).Some?
  }

  // ---- the bit stream

  function BytesToBits(b: seq<byte>): Bits {
    if b == [] then [] else LowBits(b[0], 8) + BytesToBits(b[1..])
  }

  function CharsToBits(s: string): Bits
    requires InAlphabet(s)
  {
    if s == [] then [] else LowBits(IndexOf(s[0]).value, 5) + CharsToBits(s[1..])
  }

  /** The number of zero bits that fill the last character. */
  function PadLength(n: nat): (k: nat)
    ensures k < 5
  {
    if n == 0 then 0 else if n < 5 then 5 - n else PadLength(n - 5)
  }

  lemma FiveBits(b: Bits)
    requires |b| == 5
    ensures FromBits(b) < 32
  {
    LowBitsFromBits(b);
    assert Pow2(5) == 32;
  }

  lemma EightBits(b: Bits)
    requires |b| == 8
    ensures FromBits(b) < 256
  {
    LowBitsFromBits(b);
    assert Pow2(8) == 256;
  }

  function FiveChar(b: Bits): char
    requires |b| == 5
  {
    FiveBits(b);
    CharOf(FromBits(b))
  }

  function EightByte(b: Bits): byte
    requires |b| == 8
  {
    EightBits(b);
    FromBits(b)
  }

  /** Five bits a character; the last group is filled with zeros. */
  function EncodeBits(b: Bits): string {
    if b == [] then []
    else if |b| < 5 then [FiveChar(b + Falses(5 - |b|))]
    else [FiveChar(b[..5])] + EncodeBits(b[5..])
  }

  /** Eight bits a byte; fewer than eight left over are dropped. */
  function DecodeBits(b: Bits): seq<byte> {
    if |b| < 8 then [] else [EightByte(b[..8])] + DecodeBits(b[8..])
  }

  function Encode(buffer: seq<byte>): string {
    EncodeBits(BytesToBits(buffer))
  }

  // ---- cleaning the input: trailing '=', white space, letter case

  function StripEquals(s: string): string {
    if s != [] && s[|s| - 1] == '=' then StripEquals(s[..|s| - 1]) else s
  }

  function UpperChar(c: char): char {
    if 'a' <= c <= 'z' then (c as int - 32) as char else c
  }

  function Upper(s: string): string {
    seq(|s|, i requires 0 <= i < |s| => UpperChar(s[i]))
  }

  function Clean(s: string): string {
    Upper(RemoveSpaces(StripEquals(s)))
  }

  function Decode(input: string): Result<seq<byte>, DecodeError> {
    var clean := Clean(input);
    if InAlphabet(clean) then Ok(DecodeBits(CharsToBits(clean))) else Err(InvalidCharacter)
  }

  // ---- the loops

  /** What is written, followed by the code of the pending bits and the bytes to come, is the goal. */
  ghost predicate EncodeInv(buffer: seq<byte>, i: nat, value: word, bits: nat, output: string)
    requires i <= |buffer|
  {
    output + EncodeBits(LowBits(value, bits) + BytesToBits(buffer[i..])) == Encode(buffer)
  }

  method Base32Encode(buffer: seq<byte>) returns (output: string)
    ensures output == Encode(buffer)
  {
    var bits: nat, value: word := 0, 0;
    output := "";
    var i := 0;
    EncodeStart(buffer);
    while i < |buffer|
      invariant 0 <= i <= |buffer| && bits < 5
      invariant EncodeInv(buffer, i, value, bits, output)
    {
      EncodeTake(buffer, i, value, bits, output);
      value := BitOr(Shl(value, 8), buffer[i]);
      bits := bits + 8;
      while bits >= 5
        invariant bits <= 12
        invariant EncodeInv(buffer, i + 1, value, bits, output)
      {
        EncodeEmit(buffer, i + 1, value, bits, output);
        output := output + [CharOf(BitAnd(Ushr(value, bits - 5), 31))];
        bits := bits - 5;
      }
      i := i + 1;
    }
    EncodeEnd(buffer, value, bits, output);
    if bits > 0 {
      output := output + [CharOf(BitAnd(Shl(value, 5 - bits), 31))];
    }
  }

  lemma EncodeStart(buffer: seq<byte>)
    ensures EncodeInv(buffer, 0, 0, 0, "")
  {
    assert buffer[0..] == buffer;
    assert LowBits(0, 0) + BytesToBits(buffer) == BytesToBits(buffer);
    assert "" + Encode(buffer) == Encode(buffer);
  }

  lemma EncodeTake(buffer: seq<byte>, i: nat, value: word, bits: nat, output: string)
    requires i < |buffer| && bits < 5 && EncodeInv(buffer, i, value, bits, output)
    ensures BitOr(Shl(value, 8), buffer[i]) < WORD
    ensures EncodeInv(buffer, i + 1, BitOr(Shl(value, 8), buffer[i]), bits + 8, output)
  {
    assert Pow2(8) == 256;
    TakeIn(value, bits, 8, buffer[i], BytesToBits(buffer[i + 1..]));
    assert buffer[i..][1..] == buffer[i + 1..];
  }

  lemma EncodeEmit(buffer: seq<byte>, i: nat, value: word, bits: nat, output: string)
    requires i <= |buffer| && 5 <= bits && EncodeInv(buffer, i, value, bits, output)
    ensures EncodeInv(buffer, i, value, bits - 5, output + [CharOf(BitAnd(Ushr(value, bits - 5), 31))])
  {
    var rest := BytesToBits(buffer[i..]);
    EmitFive(value, bits, rest);
    Reassociate(output, [CharOf(BitAnd(Ushr(value, bits - 5), 31))], EncodeBits(LowBits(value, bits - 5) + rest));
  }

  lemma EncodeEnd(buffer: seq<byte>, value: word, bits: nat, output: string)
    requires bits < 5 && EncodeInv(buffer, |buffer|, value, bits, output)
    ensures Encode(buffer) == output + if bits > 0 then [CharOf(BitAnd(Shl(value, 5 - bits), 31))] else []
  {
    assert LowBits(value, bits) + BytesToBits(buffer[|buffer|..]) == LowBits(value, bits);
    if bits > 0 { EmitLast(value, bits); }
  }

  lemma Reassociate<T>(a: seq<T>, b: seq<T>, c: seq<T>)
    ensures (a + b) + c == a + (b + c)
  {
  }

  /** Shifting k bits in moves them from the rest of the stream to the pending bits. */
  lemma TakeIn(value: word, bits: nat, k: nat, v: nat, rest: Bits)
    requires bits + k <= 32 && v < Pow2(k)
    ensures BitOr(Shl(value, k), v) < WORD
    ensures LowBits(BitOr(Shl(value, k), v), bits + k) + rest == LowBits(value, bits) + (LowBits(v, k) + rest)
  {
    ShiftIn(value, bits, k, v);
    WordIsPow2();
    Pow2Grows(k, 32);
    OrBelow(Shl(value, k), v, 32);
  }

  lemma {:induction false} Pow2Grows(k: nat, n: nat)
    requires k <= n
    ensures Pow2(k) <= Pow2(n)
  {
    if k < n { Pow2Grows(k, n - 1); }
  }

  /** One turn of the inner loop writes the first five pending bits. */
  lemma EmitFive(value: word, bits: nat, rest: Bits)
    requires 5 <= bits
    ensures EncodeBits(LowBits(value, bits) + rest)
         == [CharOf(BitAnd(Ushr(value, bits - 5), 31))] + EncodeBits(LowBits(value, bits - 5) + rest)
  {
    hide BitAnd, Ushr, LowBits, FromBits, Pow2, CharOf;
    ThirtyTwo();
    MaskOut(value, bits - 5, 5);
    LowBitsTail(value, 5, bits - 5);
    var b := LowBits(value, bits);
    assert (b + rest)[..5] == b[..5];
    assert (b + rest)[5..] == b[5..] + rest;
  }

  lemma EmitLast(value: word, bits: nat)
    requires 0 < bits < 5
    ensures EncodeBits(LowBits(value, bits)) == [CharOf(BitAnd(Shl(value, 5 - bits), 31))]
  {
    hide BitAnd, Shl, LowBits, FromBits, Pow2, CharOf, Falses;
    var v := Shl(value, 5 - bits);
    var b := LowBits(value, bits);
    ThirtyTwo();
    LowBitsShl(value, bits, 5 - bits);
    LowBitsAnd(v, 5);
    FromBitsLowBits(BitAnd(v, 31), 5);
    assert b + Falses(5 - |b|) == LowBits(BitAnd(v, 31), 5);
  }

  lemma ThirtyTwo()
    ensures Pow2(5) == 32
  {
  }

  ghost predicate DecodeInv(clean: string, i: nat, value: word, bits: nat, out: seq<byte>)
    requires i <= |clean|
  {
    InAlphabet(clean) ==>
      out + DecodeBits(LowBits(value, bits) + CharsToBits(clean[i..])) == DecodeBits(CharsToBits(clean))
  }

  method Base32Decode(input: string) returns (r: Result<seq<byte>, DecodeError>)
    ensures r == Decode(input)
  {
    hide BitOr, Shl, Ushr, BitAnd, DecodeInv, IndexOf, Clean, CharsToBits, DecodeBits;
    var clean := Clean(input);
    var bits: nat, value: word := 0, 0;
    var out: seq<byte> := [];
    var i := 0;
    DecodeStart(clean);
    while i < |clean|
      invariant 0 <= i <= |clean| && bits < 8
      invariant forall j :: 0 <= j < i ==> IndexOf(clean[j]).Some?
      invariant DecodeInv(clean, i, value, bits, out)
    {
      var idx := IndexOf(clean[i]);
      if idx.None? {
        return Err(InvalidCharacter);
      }
      DecodeTake(clean, i, value, bits, out);
      value := BitOr(Shl(value, 5), idx.value);
      bits := bits + 5;
      if bits >= 8 {
        DecodeEmit(clean, i + 1, value, bits, out);
        out := out + [BitAnd(Ushr(value, bits - 8), 0xff)];
        bits := bits - 8;
      }
      i := i + 1;
    }
    DecodeEnd(clean, value, bits, out);
    return Ok(out);
  }

  lemma DecodeStart(clean: string)
    ensures DecodeInv(clean, 0, 0, 0, [])
  {
    if InAlphabet(clean) {
      assert clean[0..] == clean;
      assert LowBits(0, 0) + CharsToBits(clean) == CharsToBits(clean);
      assert [] + DecodeBits(CharsToBits(clean)) == DecodeBits(CharsToBits(clean));
    }
  }

  lemma DecodeTake(clean: string, i: nat, value: word, bits: nat, out: seq<byte>)
    requires i < |clean| && bits < 8 && DecodeInv(clean, i, value, bits, out)
    requires IndexOf(clean[i]).Some?
    ensures BitOr(Shl(value, 5), IndexOf(clean[i]).value) < WORD
    ensures DecodeInv(clean, i + 1, BitOr(Shl(value, 5), IndexOf(clean[i]).value), bits + 5, out)
  {
    assert Pow2(5) == 32;
    TakeIn(value, bits, 5, IndexOf(clean[i]).value, []);
    if InAlphabet(clean) {
      TakeIn(value, bits, 5, IndexOf(clean[i]).value, CharsToBits(clean[i + 1..]));
      assert clean[i..][1..] == clean[i + 1..];
    }
  }

  lemma DecodeEmit(clean: string, i: nat, value: word, bits: nat, out: seq<byte>)
    requires i <= |clean| && 8 <= bits && DecodeInv(clean, i, value, bits, out)
    ensures BitAnd(Ushr(value, bits - 8), 0xff) < 256
    ensures DecodeInv(clean, i, value, bits - 8, out + [BitAnd(Ushr(value, bits - 8), 0xff)])
  {
    if InAlphabet(clean) {
      var rest := CharsToBits(clean[i..]);
      EmitEight(value, bits, rest);
      Reassociate(out, [BitAnd(Ushr(value, bits - 8), 0xff)], DecodeBits(LowBits(value, bits - 8) + rest));
    }
  }

  lemma DecodeEnd(clean: string, value: word, bits: nat, out: seq<byte>)
    requires bits < 8 && DecodeInv(clean, |clean|, value, bits, out) && InAlphabet(clean)
    ensures DecodeBits(CharsToBits(clean)) == out
  {
    assert clean[|clean|..] == [];
    assert LowBits(value, bits) + CharsToBits([]) == LowBits(value, bits);
  }

  lemma EmitEight(value: word, bits: nat, rest: Bits)
    requires 8 <= bits
    ensures DecodeBits(LowBits(value, bits) + rest)
         == [BitAnd(Ushr(value, bits - 8), 0xff)] + DecodeBits(LowBits(value, bits - 8) + rest)
  {
    assert Pow2(8) == 256;
    MaskOut(value, bits - 8, 8);
    LowBitsTail(value, 8, bits - 8);
    var b := LowBits(value, bits);
    assert (b + rest)[..8] == b[..8];
    assert (b + rest)[8..] == b[8..] + rest;
  }

  // ---- round trips

  lemma FiveCharBits(g: Bits)
    requires |g| == 5
    ensures IndexOf(FiveChar(g)).Some? && LowBits(IndexOf(FiveChar(g)).value, 5) == g
  {
    LowBitsFromBits(g);
    FiveBits(g);
    IndexOfCharOf(FromBits(g));
  }

  lemma CharsToBitsCons(c: char, s: string)
    requires IndexOf(c).Some? && InAlphabet(s)
    ensures InAlphabet([c] + s)
    ensures CharsToBits([c] + s) == LowBits(IndexOf(c).value, 5) + CharsToBits(s)
  {
    assert ([c] + s)[1..] == s;
  }

  /** The characters carry the given bits and then the filling zeros. */
  lemma {:induction false} EncodedBits(b: Bits)
    ensures InAlphabet(EncodeBits(b))
    ensures CharsToBits(EncodeBits(b)) == b + Falses(PadLength(|b|))
  {
    if b == [] {
    } else if |b| < 5 {
      var g := b + Falses(5 - |b|);
      FiveCharBits(g);
      CharsToBitsCons(FiveChar(g), []);
      assert [FiveChar(g)] + [] == EncodeBits(b);
      assert g + [] == g;
    } else {
      var g, rest := b[..5], b[5..];
      FiveCharBits(g);
      EncodedBits(rest);
      CharsToBitsCons(FiveChar(g), EncodeBits(rest));
      assert PadLength(|b|) == PadLength(|rest|);
      assert b == g + rest;
      assert g + (rest + Falses(PadLength(|rest|))) == (g + rest) + Falses(PadLength(|rest|));
    }
  }

  lemma {:induction false} DecodedBytes(buffer: seq<byte>, tail: Bits)
    requires |tail| < 8
    ensures DecodeBits(BytesToBits(buffer) + tail) == buffer
  {
    if buffer == [] {
      assert BytesToBits(buffer) + tail == tail;
    } else {
      var b := LowBits(buffer[0], 8);
      var all := BytesToBits(buffer) + tail;
      assert all[..8] == b && all[8..] == BytesToBits(buffer[1..]) + tail;
      assert Pow2(8) == 256;
      FromBitsLowBits(buffer[0], 8);
      DecodedBytes(buffer[1..], tail);
    }
  }

  lemma CleanKeeps(s: string)
    requires InAlphabet(s)
    ensures Clean(s) == s
  {
    forall i | 0 <= i < |s| ensures !IsSpace(s[i]) && s[i] != '=' && UpperChar(s[i]) == s[i] {
      assert IndexOf(s[i]).Some?;
    }
    RemoveSpacesKeeps(s);
    assert Upper(s) == s;
  }

  /** Decoding undoes encoding on every byte sequence. */
  lemma DecodeEncode(buffer: seq<byte>)
    ensures Decode(Encode(buffer)) == Ok(buffer)
  {
    var b := BytesToBits(buffer);
    EncodedBits(b);
    CleanKeeps(Encode(buffer));
    DecodedBytes(buffer, Falses(PadLength(|b|)));
  }

  // ---- the other direction

  lemma {:induction false} CharsToBitsLength(s: string)
    requires InAlphabet(s)
    ensures |CharsToBits(s)| == 5 * |s|
  {
    if s != [] { CharsToBitsLength(s[1..]); }
  }

  lemma {:induction false} CharsToBitsInjective(s: string, t: string)
    requires InAlphabet(s) && InAlphabet(t) && CharsToBits(s) == CharsToBits(t)
    ensures s == t
  {
    CharsToBitsLength(s);
    CharsToBitsLength(t);
    if s != [] {
      var x, y := IndexOf(s[0]).value, IndexOf(t[0]).value;
      assert CharsToBits(s)[..5] == LowBits(x, 5) && CharsToBits(t)[..5] == LowBits(y, 5);
      assert Pow2(5) == 32;
      FromBitsLowBits(x, 5);
      FromBitsLowBits(y, 5);
      assert CharsToBits(s)[5..] == CharsToBits(s[1..]) && CharsToBits(t)[5..] == CharsToBits(t[1..]);
      CharsToBitsInjective(s[1..], t[1..]);
      assert s == [s[0]] + s[1..] && t == [t[0]] + t[1..];
    }
  }

  lemma DecodedFirst(b: Bits)
    requires |b| >= 8
    ensures |DecodeBits(b)| == 1 + |DecodeBits(b[8..])|
    ensures BytesToBits(DecodeBits(b)) == b[..8] + BytesToBits(DecodeBits(b[8..]))
  {
    hide LowBits, FromBits;
    LowBitsFromBits(b[..8]);
    assert DecodeBits(b)[1..] == DecodeBits(b[8..]);
  }

  lemma EightFewer(n: nat)
    requires n >= 8
    ensures n / 8 == 1 + (n - 8) / 8 && n % 8 == (n - 8) % 8
  {
  }

  /** The bytes carry all bits but the last few. */
  lemma {:induction false} DecodedBits(b: Bits)
    ensures |DecodeBits(b)| == |b| / 8
    ensures BytesToBits(DecodeBits(b)) == b[..|b| - |b| % 8]
  {
    if |b| >= 8 {
      hide DecodeBits, BytesToBits;
      DecodedFirst(b);
      DecodedBits(b[8..]);
      EightFewer(|b|);
      assert b[..|b| - |b| % 8] == b[..8] + b[8..][..|b| - 8 - |b| % 8];
    } else {
      assert b[..0] == [];
    }
  }

  /** The bits of the last character that no byte takes. */
  function LeftoverBits(s: string): Bits
    requires InAlphabet(s)
  {
    var b := CharsToBits(s);
    b[|b| - |b| % 8..]
  }

  /**
   * The texts that are their own re-encoding: only alphabet characters (so upper case, no padding,
   * no space), a length an encoder can produce, and zeros in the bits nobody reads.
   */
  lemma EncodeDecode(s: string)
    ensures
      (Decode(s).Ok? && Encode(Decode(s).value) == s)
      <==>
      (InAlphabet(s) && |s| % 8 in {0, 2, 4, 5, 7} && LeftoverBits(s) == Falses(|LeftoverBits(s)|))
  {
    if InAlphabet(s) {
      CleanKeeps(s);
      EncodeDecodeBits(s);
    } else if Decode(s).Ok? {
      EncodedBits(BytesToBits(Decode(s).value));
    }
  }

  lemma EncodeDecodeBits(s: string)
    requires InAlphabet(s)
    ensures
      EncodeBits(BytesToBits(DecodeBits(CharsToBits(s)))) == s
      <==>
      (|s| % 8 in {0, 2, 4, 5, 7} && LeftoverBits(s) == Falses(|LeftoverBits(s)|))
  {
    var b := CharsToBits(s);
    var k := |b| % 8;
    var kept, left := b[..|b| - k], b[|b| - k..];
    assert left == LeftoverBits(s);
    assert BytesToBits(DecodeBits(b)) == kept by { DecodedBits(b); }
    assert |b| == 5 * |s| by { CharsToBitsLength(s); }
    assert k < 5 <==> |s| % 8 in {0, 2, 4, 5, 7} by { LegalLengths(|s|); }
    assert EncodeBits(kept) == s <==> k < 5 && left == Falses(k) by { ReencodedBits(b, k, |s|, s); }
  }

  lemma LegalLengths(m: nat)
    ensures (5 * m) % 8 < 5 <==> m % 8 in {0, 2, 4, 5, 7}
  {
  }

  lemma {:induction false} PadLengthIs(m: nat, k: nat)
    requires k <= 5 * m
    ensures PadLength(5 * m - k) == k <==> k < 5
  {
    if k < 5 {
      if m > 1 { PadLengthIs(m - 1, k); }
    }
  }

  /** Re-encoding all but the last k bits gives s back exactly when those k bits are the filling. */
  lemma ReencodedBits(b: Bits, k: nat, m: nat, s: string)
    requires InAlphabet(s) && CharsToBits(s) == b && |b| == 5 * m && k <= |b|
    ensures EncodeBits(b[..|b| - k]) == s <==> k < 5 && b[|b| - k..] == Falses(k)
  {
    var n := |b| - k;
    var again := EncodeBits(b[..n]);
    EncodedBits(b[..n]);
    PadLengthIs(m, k);
    assert b == b[..n] + b[n..];
    if k < 5 && b[n..] == Falses(k) {
      CharsToBitsInjective(again, s);
    }
    if again == s {
      assert b == b[..n] + Falses(PadLength(n));
      assert b[n..] == Falses(PadLength(n));
    }
  }

  // ---- tolerance

  /** Lower case, trailing padding: what decoding ignores. */
  function LowerChar(c: char): char {
    if 'A' <= c <= 'Z' then (c as int + 32) as char else c
  }

  function Lower(s: string): string {
    seq(|s|, i requires 0 <= i < |s| => LowerChar(s[i]))
  }

  lemma {:induction false} StripEqualsAll(s: string, k: nat)
    requires s == [] || s[|s| - 1] != '='
    ensures StripEquals(s + seq(k, _ => '=')) == s
  {
    var t := s + seq(k, _ => '=');
    if k == 0 {
      assert t == s;
    } else {
      assert t[..|t| - 1] == s + seq(k - 1, _ => '=');
      StripEqualsAll(s, k - 1);
    }
  }

  lemma DecodeIgnoresCaseAndPadding(buffer: seq<byte>, k: nat)
    ensures Decode(Lower(Encode(buffer)) + seq(k, _ => '=')) == Ok(buffer)
  {
    hide *;
    var s := Encode(buffer);
    assert InAlphabet(s) by { EncodedInAlphabet(buffer); }
    DecodeEncode(buffer);
    CleanKeeps(s);
    CleanOfLower(s, k);
    DecodeByClean(s, Lower(s) + seq(k, _ => '='));
  }

  lemma EncodedInAlphabet(buffer: seq<byte>)
    ensures InAlphabet(Encode(buffer))
  {
    hide EncodeBits, InAlphabet;
    EncodedBits(BytesToBits(buffer));
  }

  lemma DecodeByClean(s: string, t: string)
    requires Clean(s) == Clean(t)
    ensures Decode(s) == Decode(t)
  {
    hide Clean;
  }

  lemma CleanOfLower(s: string, k: nat)
    requires InAlphabet(s)
    ensures Clean(Lower(s) + seq(k, _ => '=')) == s
  {
    hide StripEquals, RemoveSpaces, LowerChar, UpperChar, IsSpace, IndexOf;
    var low := Lower(s);
    forall i | 0 <= i < |s| ensures low[i] != '=' && !IsSpace(low[i]) && UpperChar(low[i]) == s[i] {
      assert IndexOf(s[i]).Some?;
      LowerRoundTrip(s[i]);
    }
    StripEqualsAll(low, k);
    RemoveSpacesKeeps(low);
    assert Upper(low) == s;
  }

  lemma LowerRoundTrip(c: char)
    requires IndexOf(c).Some?
    ensures LowerChar(c) != '=' && !IsSpace(LowerChar(c)) && UpperChar(LowerChar(c)) == c
  {
  }
}
