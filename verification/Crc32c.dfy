/** CRC32C (the Castagnoli CRC of section 12.1 of RFC 3720): the table-driven
    computation against the bit-serial definition, chaining, guaranteed detection
    of short bursts, and the masking applied before a checksum is stored. */
module Crc32c {

  const POLY: bv32 := 0x82f6_3b78
  const ONES: bv32 := 0xffff_ffff
  const MASK_DELTA: bv32 := 0xa282_ead8

  // Word operations, named so that proofs can treat them as opaque.
  function Xor(a: bv32, b: bv32): bv32 { a ^ b }
  function Half(w: bv32): bv32 { w >> 1 }
  predicate Odd(w: bv32) { w & 1 != 0 }
  function HighPart(w: bv32): bv32 { w >> 8 }
  function LowByte(w: bv32): bv8 { (w & 0xff) as bv8 }
  function Word(b: bv8): bv32 { b as bv32 }

  // ------------------------------------------------ bit-serial definition

  /** One step of the shift register: the outgoing bit and the message bit decide
      whether the reflected polynomial is folded in. */
  function FeedBit(reg: bv32, bit: bool): bv32 {
    if Odd(reg) != bit then Xor(Half(reg), POLY) else Half(reg)
  }

  function FeedBits(reg: bv32, bits: seq<bool>): bv32
    decreases |bits|
  {
    if bits == [] then reg else FeedBits(FeedBit(reg, bits[0]), bits[1..])
  }

  /** The n low bits of a word, least significant first. */
  function LowBits(w: bv32, n: nat): seq<bool>
    decreases n
  {
    if n == 0 then [] else [Odd(w)] + LowBits(Half(w), n - 1)
  }

  function ByteBits(b: bv8): seq<bool> { LowBits(Word(b), 8) }

  function Bits(data: seq<bv8>): seq<bool> {
    if data == [] then [] else ByteBits(data[0]) + Bits(data[1..])
  }

  /** The register after data, from register reg. */
  function Feed(reg: bv32, data: seq<bv8>): bv32 { FeedBits(reg, Bits(data)) }

  /** The checksum of a message that starts with one whose checksum is crc. */
  function Extend(crc: bv32, data: seq<bv8>): bv32 {
    Xor(Feed(Xor(crc, ONES), data), ONES)
  }

  function Value(data: seq<bv8>): bv32 { Extend(0, data) }

  // ------------------------------------------------------------- chaining

  lemma {:induction false} FeedBitsAppend(reg: bv32, a: seq<bool>, b: seq<bool>)
    ensures FeedBits(reg, a + b) == FeedBits(FeedBits(reg, a), b)
    decreases |a|
  {
    hide FeedBit;
    if a == [] {
      assert a + b == b;
    } else {
      assert (a + b)[1..] == a[1..] + b;
      FeedBitsAppend(FeedBit(reg, a[0]), a[1..], b);
    }
  }

  lemma {:induction false} BitsAppend(a: seq<bv8>, b: seq<bv8>)
    ensures Bits(a + b) == Bits(a) + Bits(b)
    decreases |a|
  {
    hide ByteBits;
    if a == [] {
      assert a + b == b;
    } else {
      assert (a + b)[1..] == a[1..] + b;
      BitsAppend(a[1..], b);
    }
  }

  lemma FeedAppend(reg: bv32, a: seq<bv8>, b: seq<bv8>)
    ensures Feed(reg, a + b) == Feed(Feed(reg, a), b)
  {
    hide FeedBits, Bits;
    BitsAppend(a, b);
    FeedBitsAppend(reg, Bits(a), Bits(b));
  }

  lemma XorCancel(x: bv32, y: bv32)
    ensures Xor(Xor(x, y), y) == x
  {
  }

  lemma XorSwap(x: bv32, y: bv32, z: bv32)
    ensures Xor(Xor(x, y), z) == Xor(Xor(x, z), y)
    ensures Xor(Xor(x, y), z) == Xor(x, Xor(y, z))
  {
  }

  /** Extending the checksum of a by b gives the checksum of a followed by b. */
  lemma ExtendChains(crc: bv32, a: seq<bv8>, b: seq<bv8>)
    ensures Extend(Extend(crc, a), b) == Extend(crc, a + b)
  {
    hide Feed, Xor;
    FeedAppend(Xor(crc, ONES), a, b);
    XorCancel(Feed(Xor(crc, ONES), a), ONES);
  }

  // ---------------------------------------------------- byte-wise by table

  /** One zero bit shifted through. */
  function Shift(c: bv32): bv32 {
    if Odd(c) then Xor(POLY, Half(c)) else Half(c)
  }

  function ShiftN(c: bv32, k: nat): bv32
    decreases k
  {
    if k == 0 then c else ShiftN(Shift(c), k - 1)
  }

  /** w without its n low bits. */
  function Drop(w: bv32, n: nat): bv32
    decreases n
  {
    if n == 0 then w else Drop(Half(w), n - 1)
  }

  predicate LowZero(w: bv32, n: nat)
    decreases n
  {
    n == 0 || (!Odd(w) && LowZero(Half(w), n - 1))
  }

  lemma HalfEight(w: bv32)
    ensures Half(Half(Half(Half(Half(Half(Half(Half(w)))))))) == HighPart(w)
  {
  }

  lemma DropEight(w: bv32)
    ensures Drop(w, 8) == HighPart(w)
  {
    HalfEight(w);
    hide Half, HighPart;
    var w2 := Half(Half(w));
    var w4 := Half(Half(w2));
    var w6 := Half(Half(w4));
    assert Drop(w, 8) == Drop(w2, 6);
    assert Drop(w2, 6) == Drop(w4, 4);
    assert Drop(w4, 4) == Drop(w6, 2);
  }

  lemma LowZeroEight(w: bv32)
    requires w & 0xff == 0
    ensures LowZero(w, 8)
  {
    assert LowZero(w >> 8, 0);
    assert LowZero(w >> 7, 1);
    assert LowZero(w >> 6, 2);
    assert LowZero(w >> 5, 3);
    assert LowZero(w >> 4, 4);
    assert LowZero(w >> 3, 5);
    assert LowZero(w >> 2, 6);
    assert LowZero(w >> 1, 7);
  }

  lemma HalfXor(x: bv32, y: bv32)
    ensures Half(Xor(x, y)) == Xor(Half(x), Half(y))
    ensures Odd(Xor(x, y)) <==> Odd(x) != Odd(y)
  {
  }

  /** Feeding a bit of w is xoring w in and shifting it out again. */
  lemma FeedShift(reg: bv32, w: bv32)
    ensures Xor(FeedBit(reg, Odd(w)), Half(w)) == Shift(Xor(reg, w))
  {
    hide Xor, Half, Odd;
    HalfXor(reg, w);
    XorSwap(Half(reg), POLY, Half(w));
    XorComm(POLY, Xor(Half(reg), Half(w)));
  }

  lemma XorComm(x: bv32, y: bv32)
    ensures Xor(x, y) == Xor(y, x)
  {
  }

  lemma {:induction false} FeedLowBits(reg: bv32, w: bv32, n: nat)
    ensures Xor(FeedBits(reg, LowBits(w, n)), Drop(w, n)) == ShiftN(Xor(reg, w), n)
    decreases n
  {
    hide FeedBit, Shift, Xor, Odd, Half;
    if n > 0 {
      FeedShift(reg, w);
      assert LowBits(w, n)[0] == Odd(w) && LowBits(w, n)[1..] == LowBits(Half(w), n - 1);
      FeedLowBits(FeedBit(reg, Odd(w)), Half(w), n - 1);
    }
  }

  lemma ByteHasNoHighPart(b: bv8)
    ensures HighPart(Word(b)) == 0
  {
  }

  lemma XorZero(x: bv32)
    ensures Xor(x, 0) == x && Xor(0, x) == x
  {
  }

  /** Feeding a byte is xoring it in and shifting eight times. */
  lemma FeedByte(reg: bv32, b: bv8)
    ensures FeedBits(reg, ByteBits(b)) == ShiftN(Xor(reg, Word(b)), 8)
  {
    hide FeedBits, LowBits, ShiftN, Drop, Xor, HighPart, Word;
    FeedLowBits(reg, Word(b), 8);
    DropEight(Word(b));
    ByteHasNoHighPart(b);
    XorZero(FeedBits(reg, ByteBits(b)));
  }

  lemma ShiftXor(x: bv32, z: bv32)
    requires !Odd(z)
    ensures Shift(Xor(x, z)) == Xor(Shift(x), Half(z))
  {
    hide Xor, Half, Odd;
    HalfXor(x, z);
    XorSwap(POLY, Half(x), Half(z));
  }

  /** Shifting is linear; bits that only get shifted down come out unchanged. */
  lemma {:induction false} ShiftNXor(x: bv32, z: bv32, n: nat)
    requires LowZero(z, n)
    ensures ShiftN(Xor(x, z), n) == Xor(ShiftN(x, n), Drop(z, n))
    decreases n
  {
    hide Shift, Xor, Odd, Half;
    if n > 0 {
      ShiftXor(x, z);
      ShiftNXor(Shift(x), Half(z), n - 1);
    }
  }

  /** The entry of the lookup table for one byte. */
  function TableEntry(b: bv8): bv32 { ShiftN(Word(b), 8) }

  function ClearLowByte(w: bv32): bv32 { w & 0xffff_ff00 }

  lemma SplitWord(x: bv32)
    ensures Xor(Word(LowByte(x)), ClearLowByte(x)) == x && ClearLowByte(x) & 0xff == 0
    ensures HighPart(ClearLowByte(x)) == HighPart(x)
  {
  }

  /** The table splits eight shifts into a lookup and one shift by a byte. */
  lemma ShiftByTable(x: bv32)
    ensures ShiftN(x, 8) == Xor(TableEntry(LowByte(x)), HighPart(x))
  {
    hide ShiftN, Drop, LowZero, Xor, LowByte, Word, ClearLowByte, HighPart;
    SplitWord(x);
    LowZeroEight(ClearLowByte(x));
    ShiftNXor(Word(LowByte(x)), ClearLowByte(x), 8);
    DropEight(ClearLowByte(x));
  }

  lemma HighPartXorByte(reg: bv32, b: bv8)
    ensures HighPart(Xor(reg, Word(b))) == HighPart(reg)
  {
  }

  /** What one byte does to the register. */
  lemma ByteStep(reg: bv32, b: bv8)
    ensures FeedBits(reg, ByteBits(b)) == Xor(TableEntry(LowByte(Xor(reg, Word(b)))), HighPart(reg))
  {
    hide FeedBits, ByteBits, TableEntry, ShiftN, Xor, LowByte, Word, HighPart;
    FeedByte(reg, b);
    ShiftByTable(Xor(reg, Word(b)));
    HighPartXorByte(reg, b);
  }

  ghost predicate IsTable(t: array<bv32>)
    reads t
  {
    t.Length == 256 && forall i | 0 <= i < 256 :: t[i] == TableEntry(i as bv8)
  }

  method MakeTable() returns (table: array<bv32>)
    ensures fresh(table) && IsTable(table)
  {
    hide Shift, Word;
    table := new bv32[256];
    for i := 0 to 256
      invariant forall j | 0 <= j < i :: table[j] == TableEntry(j as bv8)
    {
      var c := Word(i as bv8);
      for k := 0 to 8
        invariant ShiftN(c, 8 - k) == TableEntry(i as bv8)
      {
        c := Shift(c);
      }
      table[i] := c;
    }
  }

  lemma FeedFirst(reg: bv32, data: seq<bv8>)
    requires data != []
    ensures Feed(reg, data) == Feed(FeedBits(reg, ByteBits(data[0])), data[1..])
  {
    hide FeedBits, ByteBits;
    FeedBitsAppend(reg, ByteBits(data[0]), Bits(data[1..]));
  }

  /** The table-driven loop computes the bit-serial checksum. */
  method ExtendByTable(table: array<bv32>, crc: bv32, data: seq<bv8>) returns (r: bv32)
    requires IsTable(table)
    ensures r == Extend(crc, data)
  {
    hide Feed, FeedBits, ByteBits, TableEntry, Xor, LowByte, Word, HighPart;
    var c := Xor(crc, ONES);
    for i := 0 to |data|
      invariant Feed(c, data[i..]) == Feed(Xor(crc, ONES), data)
    {
      assert data[i..][1..] == data[i + 1..];
      FeedFirst(c, data[i..]);
      ByteStep(c, data[i]);
      var x := LowByte(Xor(c, Word(data[i])));
      assert (x as nat) as bv8 == x;
      c := Xor(table[x as nat], HighPart(c));
    }
    FeedNothing(c, data[|data|..]);
    r := Xor(c, ONES);
  }

  lemma FeedNothing(c: bv32, data: seq<bv8>)
    requires data == []
    ensures Feed(c, data) == c
  {
  }

  // ------------------------------------------------------- burst detection

  /** Undoes Shift: the top bit tells whether the polynomial was folded in. */
  function Unshift(c: bv32): bv32 {
    if c & 0x8000_0000 != 0 then ((c ^ POLY) << 1) | 1 else c << 1
  }

  lemma UnshiftShift(c: bv32)
    ensures Unshift(Shift(c)) == c
  {
  }

  lemma {:induction false} ShiftNInjective(x: bv32, y: bv32, n: nat)
    requires ShiftN(x, n) == ShiftN(y, n)
    ensures x == y
    decreases n
  {
    hide Shift, Unshift;
    if n > 0 {
      ShiftNInjective(Shift(x), Shift(y), n - 1);
      UnshiftShift(x);
      UnshiftShift(y);
    }
  }

  lemma XorInjective(x: bv32, y: bv32, z: bv32)
    requires Xor(x, z) == Xor(y, z) || Xor(z, x) == Xor(z, y)
    ensures x == y
  {
    XorComm(z, x);
    XorComm(z, y);
    XorCancel(x, z);
    XorCancel(y, z);
  }

  /** Different registers stay different whatever is fed next. */
  lemma {:induction false} FeedInjective(x: bv32, y: bv32, data: seq<bv8>)
    requires Feed(x, data) == Feed(y, data)
    ensures x == y
    decreases |data|
  {
    hide Feed, FeedBits, ByteBits, ShiftN, Xor, Word;
    if data == [] {
      FeedNothing(x, data);
      FeedNothing(y, data);
    } else {
      FeedFirst(x, data);
      FeedFirst(y, data);
      FeedInjective(FeedBits(x, ByteBits(data[0])), FeedBits(y, ByteBits(data[0])), data[1..]);
      FeedByte(x, data[0]);
      FeedByte(y, data[0]);
      ShiftNInjective(Xor(x, Word(data[0])), Xor(y, Word(data[0])), 8);
      XorInjective(x, y, Word(data[0]));
    }
  }

  function Up(w: bv32): bv32 { w << 8 }

  lemma UpDown(b: bv8)
    ensures HighPart(Up(Word(b))) == Word(b)
    ensures HighPart(Up(Up(Word(b)))) == Up(Word(b))
    ensures HighPart(Up(Up(Up(Word(b))))) == Up(Up(Word(b)))
  {
  }

  lemma UpLowByte(w: bv32)
    ensures Up(w) & 0xff == 0
  {
  }

  /** A byte about to be fed can be moved in front of the eight shifts before it. */
  lemma Pull(x: bv32, y: bv32)
    requires HighPart(Up(y)) == y
    ensures Xor(ShiftN(x, 8), y) == ShiftN(Xor(x, Up(y)), 8)
  {
    hide ShiftN, Drop, LowZero, Xor, HighPart, Up;
    UpLowByte(y);
    LowZeroEight(Up(y));
    ShiftNXor(x, Up(y), 8);
    DropEight(Up(y));
  }

  function Pack(a: bv8, b: bv8, c: bv8, d: bv8): bv32 {
    Xor(Xor(Xor(Word(a), Up(Word(b))), Up(Up(Word(c)))), Up(Up(Up(Word(d)))))
  }

  lemma Unpack(a: bv32, b: bv32, c: bv32, d: bv32)
    requires a < 256 && b < 256 && c < 256 && d < 256
    ensures var w := a ^ (b << 8) ^ ((c << 8) << 8) ^ (((d << 8) << 8) << 8);
            w & 0xff == a && (w >> 8) & 0xff == b && (w >> 16) & 0xff == c && w >> 24 == d
  {
  }

  lemma ByteWord(b: bv8)
    ensures Word(b) < 256 && LowByte(Word(b)) == b
  {
  }

  function Bytes(w: bv32): (bv32, bv32, bv32, bv32) {
    (w & 0xff, (w >> 8) & 0xff, (w >> 16) & 0xff, w >> 24)
  }

  lemma UnpackPack(a: bv8, b: bv8, c: bv8, d: bv8)
    ensures Bytes(Pack(a, b, c, d)) == (Word(a), Word(b), Word(c), Word(d))
  {
    hide Word;
    ByteWord(a);
    ByteWord(b);
    ByteWord(c);
    ByteWord(d);
    Unpack(Word(a), Word(b), Word(c), Word(d));
  }

  lemma PackInjective(a: bv8, b: bv8, c: bv8, d: bv8, a': bv8, b': bv8, c': bv8, d': bv8)
    requires Pack(a, b, c, d) == Pack(a', b', c', d')
    ensures a == a' && b == b' && c == c' && d == d'
  {
    hide Word, LowByte, Pack, Bytes;
    UnpackPack(a, b, c, d);
    UnpackPack(a', b', c', d');
    ByteWord(a);
    ByteWord(b);
    ByteWord(c);
    ByteWord(d);
    ByteWord(a');
    ByteWord(b');
    ByteWord(c');
    ByteWord(d');
  }

  function Eight(x: bv32): bv32 { ShiftN(x, 8) }

  lemma FeedFour(reg: bv32, a: bv8, b: bv8, c: bv8, d: bv8)
    ensures Feed(reg, [a, b, c, d])
            == Eight(Xor(Eight(Xor(Eight(Xor(Eight(Xor(reg, Word(a))), Word(b))), Word(c))), Word(d)))
  {
    hide Feed, FeedBits, ByteBits, ShiftN, Xor, Word;
    FeedFirst(reg, [a, b, c, d]);
    FeedByte(reg, a);
    var r1 := Eight(Xor(reg, Word(a)));
    assert [a, b, c, d][1..] == [b, c, d];
    FeedFirst(r1, [b, c, d]);
    FeedByte(r1, b);
    var r2 := Eight(Xor(r1, Word(b)));
    assert [b, c, d][1..] == [c, d];
    FeedFirst(r2, [c, d]);
    FeedByte(r2, c);
    var r3 := Eight(Xor(r2, Word(c)));
    assert [c, d][1..] == [d];
    FeedFirst(r3, [d]);
    FeedByte(r3, d);
    FeedNothing(Eight(Xor(r3, Word(d))), [d][1..]);
  }

  /** Four bytes are one word, xored in before all thirty-two shifts. */
  lemma FeedPacked(reg: bv32, a: bv8, b: bv8, c: bv8, d: bv8)
    ensures Feed(reg, [a, b, c, d]) == Eight(Eight(Eight(Eight(Xor(reg, Pack(a, b, c, d))))))
  {
    FeedFour(reg, a, b, c, d);
    hide Feed, ShiftN, Xor, Word, Up, HighPart;
    UpDown(b);
    UpDown(c);
    UpDown(d);
    var x0 := Xor(reg, Word(a));
    Pull(x0, Word(b));
    var x1 := Xor(x0, Up(Word(b)));
    Pull(Eight(x1), Word(c));
    Pull(x1, Up(Word(c)));
    var x2 := Xor(x1, Up(Up(Word(c))));
    Pull(Eight(Eight(x2)), Word(d));
    Pull(Eight(x2), Up(Word(d)));
    Pull(x2, Up(Up(Word(d))));
    XorSwap(reg, Word(a), Up(Word(b)));
    XorSwap(reg, Xor(Word(a), Up(Word(b))), Up(Up(Word(c))));
    XorSwap(reg, Xor(Xor(Word(a), Up(Word(b))), Up(Up(Word(c)))), Up(Up(Up(Word(d)))));
  }

  lemma FourInjective(reg: bv32, v: seq<bv8>, w: seq<bv8>)
    requires |v| == |w| == 4 && Feed(reg, v) == Feed(reg, w)
    ensures v == w
  {
    hide Feed, ShiftN, Xor, Pack;
    assert v == [v[0], v[1], v[2], v[3]] && w == [w[0], w[1], w[2], w[3]];
    FeedPacked(reg, v[0], v[1], v[2], v[3]);
    FeedPacked(reg, w[0], w[1], w[2], w[3]);
    var x := Xor(reg, Pack(v[0], v[1], v[2], v[3]));
    var y := Xor(reg, Pack(w[0], w[1], w[2], w[3]));
    ShiftNInjective(Eight(Eight(Eight(x))), Eight(Eight(Eight(y))), 8);
    ShiftNInjective(Eight(Eight(x)), Eight(Eight(y)), 8);
    ShiftNInjective(Eight(x), Eight(y), 8);
    ShiftNInjective(x, y, 8);
    XorInjective(Pack(v[0], v[1], v[2], v[3]), Pack(w[0], w[1], w[2], w[3]), reg);
    PackInjective(v[0], v[1], v[2], v[3], w[0], w[1], w[2], w[3]);
  }

  function Zeros(n: nat): seq<bv8> { seq(n, _ => 0) }

  /** Two messages of equal length that differ only inside a window of at most
      four bytes never have the same checksum. */
  lemma DetectsBurst(a: seq<bv8>, v: seq<bv8>, w: seq<bv8>, z: seq<bv8>)
    requires |v| == |w| <= 4 && v != w
    ensures Value(a + v + z) != Value(a + w + z)
  {
    hide Feed, Xor;
    if Value(a + v + z) == Value(a + w + z) {
      var r := Feed(Xor(0, ONES), a);
      XorInjective(Feed(Xor(0, ONES), a + v + z), Feed(Xor(0, ONES), a + w + z), ONES);
      FeedAppend(Xor(0, ONES), a + v, z);
      FeedAppend(Xor(0, ONES), a + w, z);
      FeedInjective(Feed(Xor(0, ONES), a + v), Feed(Xor(0, ONES), a + w), z);
      FeedAppend(Xor(0, ONES), a, v);
      FeedAppend(Xor(0, ONES), a, w);
      var pad := Zeros(4 - |v|);
      FeedAppend(r, v, pad);
      FeedAppend(r, w, pad);
      assert v == (v + pad)[..|v|] && w == (w + pad)[..|v|];
      FourInjective(r, v + pad, w + pad);
    }
  }

  // --------------------------------------------------------------- masking

  function Mask(crc: bv32): bv32 { ((crc >> 15) | (crc << 17)) + MASK_DELTA }

  function Unmask(masked: bv32): bv32 {
    var rot := masked - MASK_DELTA;
    (rot >> 17) | (rot << 15)
  }

  /** Unmasking undoes masking, and the other way round. */
  lemma MaskRoundTrip(x: bv32)
    ensures Unmask(Mask(x)) == x && Mask(Unmask(x)) == x
  {
  }
}
