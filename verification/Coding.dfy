/** Little-endian fixed-width integers. */
module Coding {

  type Bytes = seq<bv8>

  /** What a decoder that may refuse its input returns. */
  datatype Option<T> = None | Some(value: T)

  type U32 = n: nat | n < 0x1_0000_0000

  // Bytes and their unsigned values, by halves of four bits.

  function Join(high: bv4, low: bv4): bv8 { (high as bv8 << 4) | (low as bv8) }
  function High(b: bv8): bv4 { (b >> 4) as bv4 }
  function Low(b: bv8): bv4 { (b & 15) as bv4 }

  function ToHalf(k: nat): bv4
    requires k < 16
  {
    k as bv4
  }

  function OfHalf(x: bv4): (k: nat)
    ensures k < 16
  {
    x as nat
  }

  function ToByte(n: nat): bv8
    requires n < 256
  {
    Join(ToHalf(n / 16), ToHalf(n % 16))
  }

  function OfByte(b: bv8): (n: nat)
    ensures n < 256
  {
    16 * OfHalf(High(b)) + OfHalf(Low(b))
  }

  lemma Halves(high: bv4, low: bv4)
    ensures High(Join(high, low)) == high && Low(Join(high, low)) == low
  {
  }

  lemma Joined(b: bv8)
    ensures Join(High(b), Low(b)) == b
  {
  }

  lemma NatOfHalf(k: nat)
    requires k < 16
    ensures OfHalf(ToHalf(k)) == k
  {
  }

  lemma HalfOfNat(x: bv4)
    ensures ToHalf(OfHalf(x)) == x
  {
  }

  lemma NatOfByte(n: nat)
    requires n < 256
    ensures OfByte(ToByte(n)) == n
  {
    hide Join, High, Low, ToHalf, OfHalf;
    Halves(ToHalf(n / 16), ToHalf(n % 16));
    NatOfHalf(n / 16);
    NatOfHalf(n % 16);
  }

  lemma ByteOfNat(b: bv8)
    ensures ToByte(OfByte(b)) == b
  {
    hide Join, High, Low, ToHalf, OfHalf;
    HalfOfNat(High(b));
    HalfOfNat(Low(b));
    Joined(b);
  }

  /** The four bytes of v, lowest first. */
  function Fixed32(v: U32): (s: Bytes)
    ensures |s| == 4
  {
    [ToByte(v % 256), ToByte(v / 256 % 256), ToByte(v / 65536 % 256), ToByte(v / 16777216)]
  }

  function Decode32(s: Bytes): (v: U32)
    requires |s| >= 4
  {
    OfByte(s[0]) + 256 * OfByte(s[1]) + 65536 * OfByte(s[2]) + 16777216 * OfByte(s[3])
  }

  /** Decoding what was encoded gives it back, whatever follows. */
  lemma Fixed32RoundTrip(v: U32, rest: Bytes)
    ensures Decode32(Fixed32(v) + rest) == v
  {
    hide ToByte, OfByte;
    NatOfByte(v % 256);
    NatOfByte(v / 256 % 256);
    NatOfByte(v / 65536 % 256);
    NatOfByte(v / 16777216);
    var s := Fixed32(v) + rest;
    assert s[0] == Fixed32(v)[0] && s[1] == Fixed32(v)[1] && s[2] == Fixed32(v)[2] && s[3] == Fixed32(v)[3];
    Digits(v);
  }

  lemma Digits(v: U32)
    ensures v == v % 256 + 256 * (v / 256 % 256) + 65536 * (v / 65536 % 256) + 16777216 * (v / 16777216)
  {
    assert v == v % 256 + 256 * (v / 256);
    assert v / 256 == v / 256 % 256 + 256 * (v / 65536);
    assert v / 65536 == v / 65536 % 256 + 256 * (v / 16777216);
  }

  /** Encoding a value that was decoded from four bytes gives those bytes. */
  lemma Decode32RoundTrip(s: Bytes)
    requires |s| == 4
    ensures Fixed32(Decode32(s)) == s
  {
    hide ToByte, OfByte;
    ByteOfNat(s[0]);
    ByteOfNat(s[1]);
    ByteOfNat(s[2]);
    ByteOfNat(s[3]);
    DigitsBack(OfByte(s[0]), OfByte(s[1]), OfByte(s[2]), OfByte(s[3]));
  }

  lemma DigitsBack(a: nat, b: nat, c: nat, d: nat)
    requires a < 256 && b < 256 && c < 256 && d < 256
    ensures var v := a + 256 * b + 65536 * c + 16777216 * d;
            v % 256 == a && v / 256 % 256 == b && v / 65536 % 256 == c && v / 16777216 == d
  {
    var v := a + 256 * b + 65536 * c + 16777216 * d;
    assert v / 256 == b + 256 * c + 65536 * d;
    assert v / 65536 == c + 256 * d;
  }

  /** Writes v into the first four bytes of a buffer. */
  method EncodeFixed32(dst: array<bv8>, v: U32)
    requires dst.Length >= 4
    modifies dst
    ensures dst[..4] == Fixed32(v) && dst[4..] == old(dst[4..])
  {
    dst[0] := ToByte(v % 256);
    dst[1] := ToByte(v / 256 % 256);
    dst[2] := ToByte(v / 65536 % 256);
    dst[3] := ToByte(v / 16777216);
  }
}
