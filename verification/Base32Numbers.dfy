/**
 * Base32 as positional notation: the text is the bytes, read as one number to base 256, written to base 32
 * after the filling bits.
 */
module Base32Numbers {
  import opened Wrappers
  import opened Division
  import opened Words
  import opened Whitespace
  import opened Base32

  /** The bytes as one number, the most significant first. */
  function Number256(b: seq<byte>): nat {
    if b == [] then 0 else 256 * Number256(b[..|b| - 1]) + b[|b| - 1]
  }

  /** The text as one number, each character worth its position in the alphabet. */
  function Number32(s: string): nat
    requires InAlphabet(s)
  {
    if s == [] then 0
    else
      assert InAlphabet(s[..|s| - 1]);
      32 * Number32(s[..|s| - 1]) + IndexOf(s[|s| - 1]).value
  }

  // ---- numbers and bits

  lemma FromBitsSnoc(a: Bits, bit: bool)
    ensures FromBits(a + [bit]) == 2 * FromBits(a) + if bit then 1 else 0
  {
    assert (a + [bit])[..|a|] == a;
  }

  lemma OnePlace(x: nat, n: nat)
    ensures x * Pow2(n + 1) == 2 * (x * Pow2(n))
  {
    var p := Pow2(n);
    assert Pow2(n + 1) == 2 * p;
    assert x * (2 * p) == 2 * (x * p);
  }

  lemma NoPlaces(x: nat)
    ensures x * Pow2(0) == x && FromBits([]) == 0
  {
  }

  lemma {:induction false} FromBitsConcat(a: Bits, b: Bits)
    ensures FromBits(a + b) == FromBits(a) * Pow2(|b|) + FromBits(b)
  {
    hide FromBits, Pow2;
    if b == [] {
      assert a + b == a;
      NoPlaces(FromBits(a));
    } else {
      var n := |b| - 1;
      FromBitsConcat(a, b[..n]);
      assert a + b == (a + b[..n]) + [b[n]] && b == b[..n] + [b[n]];
      FromBitsSnoc(a + b[..n], b[n]);
      FromBitsSnoc(b[..n], b[n]);
      OnePlace(FromBits(a), n);
    }
  }

  lemma {:induction false} FromFalses(k: nat)
    ensures FromBits(Falses(k)) == 0
  {
    if k > 0 {
      assert Falses(k)[..k - 1] == Falses(k - 1);
      FromFalses(k - 1);
    }
  }

  lemma {:induction false} BytesSnoc(b: seq<byte>, x: byte)
    ensures BytesToBits(b + [x]) == BytesToBits(b) + LowBits(x, 8)
  {
    hide LowBits;
    if b == [] {
      assert [x][1..] == [];
      assert LowBits(x, 8) + [] == [] + LowBits(x, 8);
    } else {
      BytesSnoc(b[1..], x);
      assert (b + [x])[1..] == b[1..] + [x];
    }
  }

  lemma {:induction false} CharsSnoc(s: string, c: char)
    requires InAlphabet(s) && IndexOf(c).Some?
    ensures InAlphabet(s + [c])
    ensures CharsToBits(s + [c]) == CharsToBits(s) + LowBits(IndexOf(c).value, 5)
  {
    hide LowBits, IndexOf;
    if s == [] {
      assert ([] + [c])[1..] == [];
      assert LowBits(IndexOf(c).value, 5) + [] == [] + LowBits(IndexOf(c).value, 5);
    } else {
      CharsSnoc(s[1..], c);
      assert (s + [c])[1..] == s[1..] + [c];
    }
  }

  lemma ByteWeight()
    ensures Pow2(8) == 256 && Pow2(5) == 32
  {
    assert Pow2(5) == 32;
  }

  lemma {:induction false} BytesAreDigits(b: seq<byte>)
    ensures FromBits(BytesToBits(b)) == Number256(b) && |BytesToBits(b)| == 8 * |b|
  {
    hide FromBits, BytesToBits, LowBits, Pow2;
    if b == [] {
      NoBits();
    } else {
      var n := |b| - 1;
      BytesAreDigits(b[..n]);
      BytesSnoc(b[..n], b[n]);
      assert b == b[..n] + [b[n]];
      FromBitsConcat(BytesToBits(b[..n]), LowBits(b[n], 8));
      ByteWeight();
      FromBitsLowBits(b[n], 8);
    }
  }

  lemma NoBits()
    ensures BytesToBits([]) == [] && CharsToBits([]) == [] && FromBits([]) == 0
  {
  }

  lemma {:induction false} CharsAreDigits(s: string)
    requires InAlphabet(s)
    ensures FromBits(CharsToBits(s)) == Number32(s) && |CharsToBits(s)| == 5 * |s|
  {
    hide FromBits, CharsToBits, LowBits, Pow2, IndexOf;
    if s == [] {
      NoBits();
    } else {
      var n := |s| - 1;
      assert InAlphabet(s[..n]);
      CharsAreDigits(s[..n]);
      CharsSnoc(s[..n], s[n]);
      assert s == s[..n] + [s[n]];
      FromBitsConcat(CharsToBits(s[..n]), LowBits(IndexOf(s[n]).value, 5));
      ByteWeight();
      FromBitsLowBits(IndexOf(s[n]).value, 5);
    }
  }

  // ---- the two directions

  /**
   * Encoding writes the number of the bytes to base 32, with fewer than five zero bits filled in behind so
   * that the bits come out in whole characters.
   */
  lemma EncodeIsPositional(buffer: seq<byte>) returns (filled: nat)
    ensures filled < 5 && 5 * |Encode(buffer)| == 8 * |buffer| + filled
    ensures InAlphabet(Encode(buffer)) && Number32(Encode(buffer)) == Number256(buffer) * Pow2(filled)
  {
    hide FromBits, BytesToBits, CharsToBits, EncodeBits, Pow2, Falses, Number32, Number256;
    var b := BytesToBits(buffer);
    filled := PadLength(|b|);
    EncodedBits(b);
    CharsAreDigits(Encode(buffer));
    BytesAreDigits(buffer);
    FromBitsConcat(b, Falses(filled));
    FromFalses(filled);
  }

  /** Decoding reads the number to base 32 and drops the bits that fill no byte. */
  lemma DecodeIsPositional(s: string)
    requires InAlphabet(s)
    ensures Decode(s).Ok?
    ensures
      var bytes, spare := Decode(s).value, 5 * |s| % 8;
      8 * |bytes| + spare == 5 * |s| && Number256(bytes) == Number32(s) / Pow2(spare)
  {
    hide FromBits, BytesToBits, CharsToBits, DecodeBits, Pow2, Number32, Number256, Clean;
    CleanKeeps(s);
    var b := CharsToBits(s);
    CharsAreDigits(s);
    DecodedBits(b);
    var k := |b| % 8;
    var kept, left := b[..|b| - k], b[|b| - k..];
    assert b == kept + left;
    BytesAreDigits(DecodeBits(b));
    FromBitsConcat(kept, left);
    LowBitsFromBits(left);
    QuotientIs(Number32(s), Pow2(k), FromBits(kept), FromBits(left));
  }

  /** White space anywhere in an unpadded text is ignored. */
  lemma DecodeIgnoresSpaces(t: string)
    requires '=' !in t && InAlphabet(RemoveSpaces(t))
    ensures Decode(t) == Decode(RemoveSpaces(t))
  {
    hide DecodeBits, CharsToBits, RemoveSpaces;
    CleanKeeps(RemoveSpaces(t));
    NothingToStrip(t);
    UpperKeeps(RemoveSpaces(t));
  }

  lemma NothingToStrip(t: string)
    requires '=' !in t
    ensures StripEquals(t) == t
  {
  }

  lemma UpperKeeps(s: string)
    requires InAlphabet(s)
    ensures Upper(s) == s
  {
    forall i | 0 <= i < |s| ensures UpperChar(s[i]) == s[i] { assert IndexOf(s[i]).Some?; }
  }
}
