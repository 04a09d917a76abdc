/** What the checksum is: the register after a message is the remainder of the
    message, as a polynomial over the two-element field, by the generator of
    section 12.1 of RFC 3720. */
module Castagnoli {
  import opened Crc32c

  /** A polynomial over the two-element field: the exponents with coefficient one. */
  type Poly = set<nat>

  function Add(a: Poly, b: Poly): Poly { (a - b) + (b - a) }

  function TimesX(a: Poly, n: nat): Poly { set e | e in a :: e + n }

  /** The polynomial with the given coefficients, highest first. */
  function Horner(bits: seq<bool>): Poly {
    if bits == [] then {}
    else Add(TimesX(Horner(bits[..|bits| - 1]), 1), if bits[|bits| - 1] then {0} else {})
  }

  /** The generator polynomial of CRC32C. */
  const GENERATOR: Poly := {32, 28, 27, 26, 25, 23, 22, 20, 19, 18, 14, 13, 11, 10, 9, 8, 6, 0}

  /** The generator times the polynomial with the given coefficients. */
  function Multiple(quotient: seq<bool>): Poly {
    if quotient == [] then {}
    else Add(TimesX(Multiple(quotient[..|quotient| - 1]), 1), if quotient[|quotient| - 1] then GENERATOR else {})
  }

  /** The register holds the coefficient of x^31 in its lowest bit. */
  function RegisterPoly(reg: bv32): Poly { Horner(LowBits(reg, 32)) }

  // ------------------------------------------------------------ polynomials

  lemma InAdd(a: Poly, b: Poly, e: nat)
    ensures e in Add(a, b) <==> (e in a) != (e in b)
  {
  }

  lemma AddSwap(a: Poly, b: Poly, c: Poly)
    ensures Add(Add(a, b), c) == Add(a, Add(b, c)) && Add(a, b) == Add(b, a)
  {
  }

  lemma AddFour(a: Poly, b: Poly, c: Poly, d: Poly)
    ensures Add(Add(a, b), Add(c, d)) == Add(Add(a, c), Add(b, d))
  {
    AddSwap(Add(a, b), c, d);
    AddSwap(a, b, c);
    AddSwap(b, c, c);
    AddSwap(a, c, b);
    AddSwap(Add(a, c), b, d);
  }

  lemma AddNone(a: Poly)
    ensures Add(a, {}) == a == Add({}, a) && Add(a, a) == {}
  {
  }

  lemma TimesAdd(a: Poly, b: Poly, n: nat)
    ensures TimesX(Add(a, b), n) == Add(TimesX(a, n), TimesX(b, n))
  {
    forall e: nat ensures e in TimesX(Add(a, b), n) <==> e in Add(TimesX(a, n), TimesX(b, n)) {
      InTimes(a, n, e);
      InTimes(b, n, e);
      InTimes(Add(a, b), n, e);
    }
  }

  lemma InTimes(a: Poly, n: nat, e: nat)
    ensures e in TimesX(a, n) <==> e >= n && e - n in a
  {
    if e >= n && e - n in a {
      assert (e - n) + n in TimesX(a, n);
    }
  }

  lemma TimesTwice(a: Poly, m: nat, n: nat)
    ensures TimesX(TimesX(a, m), n) == TimesX(a, m + n)
  {
    forall e: nat ensures e in TimesX(TimesX(a, m), n) <==> e in TimesX(a, m + n) {
      InTimes(TimesX(a, m), n, e);
      InTimes(a, m + n, e);
      if e >= n {
        InTimes(a, m, e - n);
      }
    }
  }

  function If(b: bool, p: Poly): Poly { if b then p else {} }

  /** The first coefficient is the highest. */
  lemma {:induction false} HornerFirst(c: bool, s: seq<bool>)
    ensures Horner([c] + s) == Add(If(c, {|s|}), Horner(s))
    decreases |s|
  {
    hide Add, TimesX;
    if s == [] {
      assert [c] + s == [c] && [c][..0] == [];
      assert Horner([c]) == Add(TimesX({}, 1), If(c, {0}));
      AddNone(If(c, {0}));
      assert TimesX({}, 1) == {} by { TimesNone(1); }
    } else {
      var k := |s| - 1;
      var init, low := s[..k], If(s[k], {0});
      assert ([c] + s)[..k + 1] == [c] + init;
      HornerFirst(c, init);
      TimesAdd(If(c, {k}), Horner(init), 1);
      TimesOne(c, k);
      AddSwap(If(c, {k + 1}), TimesX(Horner(init), 1), low);
    }
  }

  lemma TimesNone(n: nat)
    ensures TimesX({}, n) == {}
  {
  }

  lemma TimesOne(c: bool, k: nat)
    ensures TimesX(If(c, {k}), 1) == If(c, {k + 1})
  {
  }

  lemma {:induction false} HornerBound(s: seq<bool>, e: nat)
    requires e in Horner(s)
    ensures e < |s|
    decreases |s|
  {
    if s != [] {
      var init := s[..|s| - 1];
      if e > 0 {
        InTimes(Horner(init), 1, e);
        HornerBound(init, e - 1);
      }
    }
  }

  // --------------------------------------------------------------- register

  lemma {:induction false} LowBitsXor(a: bv32, b: bv32, n: nat)
    ensures |LowBits(a, n)| == n
    ensures Horner(LowBits(Xor(a, b), n)) == Add(Horner(LowBits(a, n)), Horner(LowBits(b, n)))
    decreases n
  {
    hide Xor, Half, Odd, Add, Horner;
    if n == 0 {
      HornerNone();
      AddNone({});
    } else {
      HalfXor(a, b);
      LowBitsXor(Half(a), Half(b), n - 1);
      LowBitsXor(Half(b), Half(a), n - 1);
      LowBitsXor(Half(Xor(a, b)), 0, n - 1);
      HornerFirst(Odd(a), LowBits(Half(a), n - 1));
      HornerFirst(Odd(b), LowBits(Half(b), n - 1));
      HornerFirst(Odd(Xor(a, b)), LowBits(Half(Xor(a, b)), n - 1));
      AddFour(If(Odd(a), {n - 1}), Horner(LowBits(Half(a), n - 1)),
              If(Odd(b), {n - 1}), Horner(LowBits(Half(b), n - 1)));
      IfXor(Odd(a), Odd(b), {n - 1});
    }
  }

  lemma HornerNone()
    ensures Horner([]) == {}
  {
  }

  lemma IfXor(a: bool, b: bool, p: Poly)
    ensures Add(If(a, p), If(b, p)) == If(a != b, p)
  {
  }

  lemma {:induction false} LowBitsSnoc(w: bv32, n: nat)
    ensures LowBits(w, n + 1) == LowBits(w, n) + [Odd(Drop(w, n))]
    decreases n
  {
    hide Half, Odd;
    if n > 0 {
      LowBitsSnoc(Half(w), n - 1);
    }
  }

  lemma {:induction false} DropTwice(w: bv32, m: nat, n: nat)
    ensures Drop(Drop(w, m), n) == Drop(w, m + n)
    decreases m
  {
    hide Half;
    if m > 0 {
      DropTwice(Half(w), m - 1, n);
    }
  }

  lemma HighPartFour(w: bv32)
    ensures HighPart(HighPart(HighPart(HighPart(w)))) == 0 && !Odd(0)
  {
  }

  lemma DropAll(w: bv32)
    ensures Drop(w, 32) == 0
  {
    hide Drop, HighPart;
    DropEight(w);
    DropEight(HighPart(w));
    DropEight(HighPart(HighPart(w)));
    DropEight(HighPart(HighPart(HighPart(w))));
    DropTwice(w, 8, 8);
    DropTwice(w, 16, 8);
    DropTwice(w, 24, 8);
    HighPartFour(w);
  }

  lemma LowBitsFirst(w: bv32, n: nat)
    ensures LowBits(w, n + 1) == [Odd(w)] + LowBits(Half(w), n) && |LowBits(Half(w), n)| == n
  {
    hide Half, Odd, Xor, Horner, Add;
    LowBitsXor(Half(w), 0, n);
  }

  lemma HornerLast(s: seq<bool>, b: bool)
    ensures Horner(s + [b]) == Add(TimesX(Horner(s), 1), If(b, {0}))
  {
    hide Add, TimesX;
    assert (s + [b])[..|s|] == s;
  }

  /** The lowest bit of a word of n + 1 bits is its coefficient of x^n. */
  lemma Peel(w: bv32, n: nat)
    ensures Horner(LowBits(w, n + 1)) == Add(If(Odd(w), {n}), Horner(LowBits(Half(w), n)))
  {
    hide Half, Odd, LowBits, Horner, Add;
    LowBitsFirst(w, n);
    HornerFirst(Odd(w), LowBits(Half(w), n));
  }

  /** The bit shifted in at the top is zero. */
  lemma HalfBits(reg: bv32)
    ensures LowBits(Half(reg), 32) == LowBits(Half(reg), 31) + [false]
  {
    hide Half, Odd, LowBits, Drop;
    LowBitsSnoc(Half(reg), 31);
    DropAll(reg);
    DropTwice(reg, 1, 31);
    DropOnce(reg);
    HighPartFour(reg);
  }

  lemma DropOnce(w: bv32)
    ensures Drop(w, 1) == Half(w)
  {
    hide Half;
  }

  /** Shifting the register multiplies by x, less the coefficient shifted out. */
  lemma HalfTimesX(reg: bv32)
    ensures TimesX(RegisterPoly(reg), 1) == Add(If(Odd(reg), {32}), RegisterPoly(Half(reg)))
  {
    hide Half, Odd, LowBits, Horner, Add, TimesX;
    var h := Horner(LowBits(Half(reg), 31));
    Peel(reg, 31);
    TimesAdd(If(Odd(reg), {31}), h, 1);
    TimesOne(Odd(reg), 31);
    HalfBits(reg);
    HornerLast(LowBits(Half(reg), 31), false);
    AddNone(TimesX(h, 1));
  }

  /** The exponents of the four lowest bits of a word of n + 4 bits. */
  function Nibble(w: bv32, n: nat): Poly {
    If(w & 1 != 0, {n + 3}) + If(w & 2 != 0, {n + 2}) + If(w & 4 != 0, {n + 1}) + If(w & 8 != 0, {n})
  }

  lemma PeelFour(w: bv32, n: nat)
    ensures Horner(LowBits(w, n + 4)) == Add(Nibble(w, n), Horner(LowBits(w >> 4, n)))
  {
    hide LowBits, Horner;
    var (a, b, c) := (Half(w), Half(Half(w)), Half(Half(Half(w))));
    Peel(w, n + 3);
    Peel(a, n + 2);
    Peel(b, n + 1);
    Peel(c, n);
    FourBits(w);
    hide Half, Odd;
  }

  lemma FourBits(w: bv32)
    ensures Odd(w) == (w & 1 != 0) && Odd(Half(w)) == (w & 2 != 0)
    ensures Odd(Half(Half(w))) == (w & 4 != 0) && Odd(Half(Half(Half(w)))) == (w & 8 != 0)
    ensures Half(Half(Half(Half(w)))) == w >> 4
  {
    TwoBits(w);
    TwoBits(w >> 2);
    NextTwo(w);
    hide Odd, Half;
  }

  lemma TwoBits(w: bv32)
    ensures Odd(w) == (w & 1 != 0) && Odd(Half(w)) == (w & 2 != 0) && Half(Half(w)) == w >> 2
  {
  }

  lemma NextTwo(w: bv32)
    ensures ((w >> 2) & 1 != 0) == (w & 4 != 0) && ((w >> 2) & 2 != 0) == (w & 8 != 0) && (w >> 2) >> 2 == w >> 4
  {
  }

  lemma FourMore(w: bv32, n: nat, rest: Poly)
    requires Horner(LowBits(w >> 4, n)) == rest && forall e | e in rest :: e < n
    ensures Horner(LowBits(w, n + 4)) == Nibble(w, n) + rest
  {
    hide LowBits, Horner;
    PeelFour(w, n);
  }

  /** The constant in the code is the generator, reflected, without its x^32. */
  lemma PolyIsGenerator()
    ensures Add({32}, RegisterPoly(POLY)) == GENERATOR
  {
    hide LowBits, Horner;
    LowHalf();
    HighHalf({14, 13, 11, 10, 9, 8, 6, 0});
  }

  lemma HighHalf(low: Poly)
    requires Horner(LowBits(0x82f6, 16)) == low && forall e | e in low :: e < 16
    ensures RegisterPoly(0x82f6_3b78) == {28, 27, 26, 25} + ({23, 22, 20} + ({19, 18} + low))
  {
    hide LowBits, Horner, Nibble;
    NibblesOfHighHalf();
    FourMore(0x82f63, 16, low);
    FourMore(0x82f63b, 20, {19, 18} + low);
    FourMore(0x82f63b7, 24, {23, 22, 20} + ({19, 18} + low));
    FourMore(0x82f63b78, 28, {27, 26, 25} + ({23, 22, 20} + ({19, 18} + low)));
  }

  lemma NibblesOfHighHalf()
    ensures Nibble(0x82f63, 16) == {19, 18} && Nibble(0x82f63b, 20) == {23, 22, 20}
    ensures Nibble(0x82f63b7, 24) == {27, 26, 25} && Nibble(0x82f63b78, 28) == {28}
  {
  }

  lemma LowHalf()
    ensures Horner(LowBits(0x82f6, 16)) == {14, 13, 11, 10, 9, 8, 6, 0}
  {
    hide LowBits, Horner;
    NoBits(0x8 >> 4);
    FourMore(0x8, 0, {});
    assert Nibble(0x8, 0) == {0};
    FourMore(0x82, 4, {0});
    assert Nibble(0x82, 4) == {6};
    FourMore(0x82f, 8, {6, 0});
    assert Nibble(0x82f, 8) == {11, 10, 9, 8};
    FourMore(0x82f6, 12, {11, 10, 9, 8, 6, 0});
    assert Nibble(0x82f6, 12) == {14, 13};
  }

  lemma NoBits(w: bv32)
    ensures Horner(LowBits(w, 0)) == {}
  {
  }

  // -------------------------------------------------------------- remainder

  /** One step: the register times x, plus the message bit at x^32, less the
      generator if the step subtracts it. */
  lemma FeedBitStep(reg: bv32, bit: bool)
    ensures Add(TimesX(RegisterPoly(reg), 1), If(bit, {32}))
            == Add(If(Odd(reg) != bit, GENERATOR), RegisterPoly(FeedBit(reg, bit)))
  {
    hide Odd, Half, Xor, RegisterPoly, TimesX, Add;
    var h := RegisterPoly(Half(reg));
    HalfTimesX(reg);
    AddSwap(If(Odd(reg), {32}), h, If(bit, {32}));
    AddSwap(h, If(bit, {32}), {});
    AddSwap(If(Odd(reg), {32}), If(bit, {32}), h);
    IfXor(Odd(reg), bit, {32});
    if Odd(reg) != bit {
      XorPoly(Half(reg), POLY);
      PolyIsGenerator();
      AddSwap({32}, RegisterPoly(POLY), Add(h, RegisterPoly(POLY)));
      AddSwap(h, RegisterPoly(POLY), RegisterPoly(POLY));
      AddSwap(RegisterPoly(POLY), h, RegisterPoly(POLY));
      AddSwap(RegisterPoly(POLY), RegisterPoly(POLY), h);
      AddNone(RegisterPoly(POLY));
      AddNone(h);
    } else {
      AddNone(h);
    }
  }

  lemma XorPoly(a: bv32, b: bv32)
    ensures RegisterPoly(Xor(a, b)) == Add(RegisterPoly(a), RegisterPoly(b))
  {
    hide LowBits, Horner, Add, Xor;
    LowBitsXor(a, b, 32);
  }

  /** The register before, carried along, and the message, shifted up by 32. */
  function Dividend(reg: bv32, bits: seq<bool>): Poly {
    Add(TimesX(RegisterPoly(reg), |bits|), TimesX(Horner(bits), 32))
  }

  lemma DividendNone(reg: bv32)
    ensures Dividend(reg, []) == RegisterPoly(reg)
  {
    hide RegisterPoly;
    HornerNone();
    TimesNone(32);
    forall e: nat ensures e in TimesX(RegisterPoly(reg), 0) <==> e in RegisterPoly(reg) {
      InTimes(RegisterPoly(reg), 0, e);
    }
    AddNone(RegisterPoly(reg));
  }

  lemma DividendSnoc(reg: bv32, bits: seq<bool>, bit: bool)
    ensures Dividend(reg, bits + [bit]) == Add(TimesX(Dividend(reg, bits), 1), If(bit, {32}))
  {
    hide RegisterPoly, Horner, TimesX, Add;
    var r, m := RegisterPoly(reg), Horner(bits);
    HornerLast(bits, bit);
    TimesAdd(TimesX(m, 1), If(bit, {0}), 32);
    TimesTwice(m, 1, 32);
    TimesTwice(m, 32, 1);
    TimesTwice(r, |bits|, 1);
    TimesAdd(TimesX(r, |bits|), TimesX(m, 32), 1);
    BitUp(bit);
    AddSwap(TimesX(r, |bits| + 1), TimesX(m, 33), If(bit, {32}));
  }

  lemma BitUp(bit: bool)
    ensures TimesX(If(bit, {0}), 32) == If(bit, {32})
  {
  }

  lemma MultipleSnoc(q: seq<bool>, b: bool)
    ensures Multiple(q + [b]) == Add(TimesX(Multiple(q), 1), If(b, GENERATOR))
  {
    hide Add, TimesX;
    assert (q + [b])[..|q|] == q;
  }

  /** The register after bits is the remainder by the generator of the register
      before and the message: their difference is a multiple of the generator, and
      the register has degree below 32. */
  lemma {:induction false} FeedIsRemainder(reg: bv32, bits: seq<bool>) returns (quotient: seq<bool>)
    ensures |quotient| == |bits|
    ensures Dividend(reg, bits) == Add(Multiple(quotient), RegisterPoly(FeedBits(reg, bits)))
    ensures forall e | e in RegisterPoly(FeedBits(reg, bits)) :: e < 32
    decreases |bits|
  {
    hide Dividend, RegisterPoly, Add, TimesX, FeedBit, FeedBits, Multiple;
    DegreeBound(FeedBits(reg, bits));
    if bits == [] {
      quotient := [];
      NothingFed(reg);
      DividendNone(reg);
      AddNone(RegisterPoly(reg));
    } else {
      var init, bit := bits[..|bits| - 1], bits[|bits| - 1];
      var q := FeedIsRemainder(reg, init);
      assert bits == init + [bit];
      var r := FeedBits(reg, init);
      FeedBitsAppend(reg, init, [bit]);
      OneFed(r, bit);
      DividendSnoc(reg, init, bit);
      TimesAdd(Multiple(q), RegisterPoly(r), 1);
      FeedBitStep(r, bit);
      quotient := q + [Odd(r) != bit];
      MultipleSnoc(q, Odd(r) != bit);
      var (x, y, g) := (TimesX(Multiple(q), 1), TimesX(RegisterPoly(r), 1), If(Odd(r) != bit, GENERATOR));
      AddSwap(x, y, If(bit, {32}));
      AddSwap(x, g, RegisterPoly(FeedBit(r, bit)));
    }
  }

  lemma NothingFed(reg: bv32)
    ensures FeedBits(reg, []) == reg && Multiple([]) == {}
  {
  }

  lemma OneFed(reg: bv32, bit: bool)
    ensures FeedBits(reg, [bit]) == FeedBit(reg, bit)
  {
    hide FeedBit;
    assert [bit][1..] == [];
  }

  lemma DegreeBound(reg: bv32)
    ensures forall e | e in RegisterPoly(reg) :: e < 32
  {
    hide LowBits, Horner, Xor;
    LowBitsXor(reg, 0, 32);
    forall e | e in RegisterPoly(reg) ensures e < 32 {
      HornerBound(LowBits(reg, 32), e);
    }
  }

  /** The checksum of a message, complemented, is the remainder by the generator of
      the message shifted up by 32, with its first 32 coefficients complemented. */
  lemma ValueIsRemainder(data: seq<bv8>) returns (quotient: seq<bool>)
    ensures Dividend(0xffff_ffff, Bits(data)) == Add(Multiple(quotient), RegisterPoly(Xor(Value(data), 0xffff_ffff)))
    ensures forall e | e in RegisterPoly(Xor(Value(data), 0xffff_ffff)) :: e < 32
  {
    hide Dividend, RegisterPoly, Add, Multiple, FeedBits, Bits, Xor;
    quotient := FeedIsRemainder(0xffff_ffff, Bits(data));
    XorZero(0xffff_ffff);
    XorCancel(Feed(0xffff_ffff, data), 0xffff_ffff);
  }

  // ------------------------------------------------------------- uniqueness

  function XorBits(a: seq<bool>, b: seq<bool>): (c: seq<bool>)
    requires |a| == |b|
    ensures |c| == |a|
  {
    seq(|a|, i requires 0 <= i < |a| => a[i] != b[i])
  }

  lemma {:induction false} MultipleAdd(a: seq<bool>, b: seq<bool>)
    requires |a| == |b|
    ensures Add(Multiple(a), Multiple(b)) == Multiple(XorBits(a, b))
    decreases |a|
  {
    hide Add, TimesX, GENERATOR;
    if a == [] {
      AddNone({});
    } else {
      var k := |a| - 1;
      MultipleAdd(a[..k], b[..k]);
      assert XorBits(a, b)[..k] == XorBits(a[..k], b[..k]);
      var (x, y) := (Multiple(a[..k]), Multiple(b[..k]));
      TimesAdd(x, y, 1);
      AddFour(TimesX(x, 1), If(a[k], GENERATOR), TimesX(y, 1), If(b[k], GENERATOR));
      IfXor(a[k], b[k], GENERATOR);
    }
  }

  /** A multiple of the generator is zero or has degree at least 32. */
  lemma {:induction false} MultipleIsHigh(q: seq<bool>)
    ensures Multiple(q) == {} || exists e :: e in Multiple(q) && e >= 32
    decreases |q|
  {
    hide Add, TimesX, GENERATOR;
    GeneratorDegree();
    if q != [] {
      var init, b := q[..|q| - 1], q[|q| - 1];
      var m := Multiple(init);
      MultipleIsHigh(init);
      if m == {} {
        TimesNone(1);
        AddNone(If(b, GENERATOR));
        assert b ==> 32 in Multiple(q);
      } else {
        var e :| e in m && e >= 32;
        InTimes(m, 1, e + 1);
        InAdd(TimesX(m, 1), If(b, GENERATOR), e + 1);
        assert e + 1 in Multiple(q);
      }
    }
  }

  lemma GeneratorDegree()
    ensures 32 in GENERATOR && forall e | e in GENERATOR :: e <= 32
  {
  }

  /** There is only one remainder. */
  lemma RemainderUnique(q: seq<bool>, r: Poly, q': seq<bool>, r': Poly)
    requires |q| == |q'| && Add(Multiple(q), r) == Add(Multiple(q'), r')
    requires (forall e | e in r :: e < 32) && forall e | e in r' :: e < 32
    ensures r == r'
  {
    hide Multiple;
    var m := Multiple(XorBits(q, q'));
    MultipleAdd(q, q');
    MultipleIsHigh(XorBits(q, q'));
    forall e: nat ensures e in m <==> (e in r) != (e in r') {
      InAdd(Multiple(q), r, e);
      InAdd(Multiple(q'), r', e);
      InAdd(Multiple(q), Multiple(q'), e);
    }
  }

  // ------------------------------------------------------------ check value

  function ShiftEight(x: bv32): bv32 { Shift(Shift(Shift(Shift(Shift(Shift(Shift(Shift(x)))))))) }

  lemma ShiftEightIs(x: bv32)
    ensures ShiftN(x, 8) == ShiftEight(x)
  {
    hide Shift;
    var x2 := Shift(Shift(x));
    var x4 := Shift(Shift(x2));
    var x6 := Shift(Shift(x4));
    assert ShiftN(x, 8) == ShiftN(x2, 6);
    assert ShiftN(x2, 6) == ShiftN(x4, 4);
    assert ShiftN(x4, 4) == ShiftN(x6, 2);
  }

  lemma FeedNext(reg: bv32, b: bv8, rest: seq<bv8>)
    ensures Feed(reg, [b] + rest) == Feed(ShiftEight(Xor(reg, Word(b))), rest)
  {
    hide Feed, FeedBits, ByteBits, ShiftN, Shift, Xor, Word, ShiftEight;
    var data := [b] + rest;
    assert data[0] == b && data[1..] == rest;
    FeedFirst(reg, data);
    FeedByte(reg, b);
    ShiftEightIs(Xor(reg, Word(b)));
  }

  // The register after each digit.

  lemma FirstThree(rest: seq<bv8>)
    ensures Feed(0xffff_ffff, [0x31, 0x32, 0x33] + rest) == Feed(0xef84_d04d, rest)
  {
    hide Feed, ShiftEight;
    RegistersOfFirstThree();
    FeedNext(0xffff_ffff, 0x31, [0x32, 0x33] + rest);
    FeedNext(0x6f0a_661c, 0x32, [0x33] + rest);
    FeedNext(0x8caa_3b9f, 0x33, rest);
    assert [0x31, 0x32, 0x33] + rest == [0x31] + ([0x32, 0x33] + rest);
    assert [0x32, 0x33] + rest == [0x32] + ([0x33] + rest);
  }

  lemma RegistersOfFirstThree()
    ensures ShiftEight(Xor(0xffff_ffff, Word(0x31))) == 0x6f0a_661c
    ensures ShiftEight(Xor(0x6f0a_661c, Word(0x32))) == 0x8caa_3b9f
    ensures ShiftEight(Xor(0x8caa_3b9f, Word(0x33))) == 0xef84_d04d
  {
  }

  lemma NextThree(rest: seq<bv8>)
    ensures Feed(0xef84_d04d, [0x34, 0x35, 0x36] + rest) == Feed(0xbeca_8e79, rest)
  {
    hide Feed, ShiftEight;
    RegistersOfNextThree();
    FeedNext(0xef84_d04d, 0x34, [0x35, 0x36] + rest);
    FeedNext(0x09c5_0b11, 0x35, [0x36] + rest);
    FeedNext(0xe72e_dcca, 0x36, rest);
    assert [0x34, 0x35, 0x36] + rest == [0x34] + ([0x35, 0x36] + rest);
    assert [0x35, 0x36] + rest == [0x35] + ([0x36] + rest);
  }

  lemma RegistersOfNextThree()
    ensures ShiftEight(Xor(0xef84_d04d, Word(0x34))) == 0x09c5_0b11
    ensures ShiftEight(Xor(0x09c5_0b11, Word(0x35))) == 0xe72e_dcca
    ensures ShiftEight(Xor(0xe72e_dcca, Word(0x36))) == 0xbeca_8e79
  {
  }

  lemma LastThree(rest: seq<bv8>)
    ensures Feed(0xbeca_8e79, [0x37, 0x38, 0x39] + rest) == Feed(0x1cf9_6d7c, rest)
  {
    hide Feed, ShiftEight;
    RegistersOfLastThree();
    FeedNext(0xbeca_8e79, 0x37, [0x38, 0x39] + rest);
    FeedNext(0xedbd_6815, 0x38, [0x39] + rest);
    FeedNext(0x9f78_7f65, 0x39, rest);
    assert [0x37, 0x38, 0x39] + rest == [0x37] + ([0x38, 0x39] + rest);
    assert [0x38, 0x39] + rest == [0x38] + ([0x39] + rest);
  }

  lemma RegistersOfLastThree()
    ensures ShiftEight(Xor(0xbeca_8e79, Word(0x37))) == 0xedbd_6815
    ensures ShiftEight(Xor(0xedbd_6815, Word(0x38))) == 0x9f78_7f65
    ensures ShiftEight(Xor(0x9f78_7f65, Word(0x39))) == 0x1cf9_6d7c
  {
  }

  /** The check value of CRC32C: the checksum of the digits 1 to 9 in ASCII. */
  lemma CheckValue()
    ensures Value([0x31, 0x32, 0x33, 0x34, 0x35, 0x36, 0x37, 0x38, 0x39]) == 0xe306_9283
  {
    hide Feed;
    var a: seq<bv8>, b: seq<bv8>, c: seq<bv8> := [0x31, 0x32, 0x33], [0x34, 0x35, 0x36], [0x37, 0x38, 0x39];
    assert [0x31, 0x32, 0x33, 0x34, 0x35, 0x36, 0x37, 0x38, 0x39] == a + (b + (c + []));
    FirstThree(b + (c + []));
    NextThree(c + []);
    LastThree([]);
    FeedNothing(0x1cf9_6d7c, []);
  }
}
