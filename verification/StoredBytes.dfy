/** What is on disk, byte by byte: numbers are little-endian, the stored checksum is
    rotated and offset, and every tag and length is where a reader of the format
    expects it. */
module StoredBytes {
  import opened Coding
  import Crc = Crc32c
  import F = WalFormat
  import R = WalRecords
  import D = Durability
  import T = RaftTypes
  import Rec = RaftRecords
  import K = Commands
  import Dirty = WalDirtyCut

  // ----------------------------------------------------------------- numbers

  /** The number whose lowest byte comes first. */
  function LittleEndian(s: Bytes): nat {
    if s == [] then 0 else Unsigned(s[0]) + 256 * LittleEndian(s[1..])
  }

  function Unsigned(b: bv8): nat { b as nat }

  lemma ByteValue(b: bv8)
    ensures OfByte(b) == Unsigned(b)
  {
  }

  lemma ByteOf(n: nat)
    requires n < 256
    ensures Unsigned(ToByte(n)) == n
  {
    hide ToByte, OfByte, Unsigned;
    NatOfByte(n);
    ByteValue(ToByte(n));
  }

  lemma LittleEndianFirst(n: nat, s: Bytes)
    requires n < 256
    ensures LittleEndian([ToByte(n)] + s) == n + 256 * LittleEndian(s)
  {
    hide ToByte;
    ByteOf(n);
    assert ([ToByte(n)] + s)[1..] == s;
  }

  /** Four bytes hold the number, lowest byte first. */
  lemma Fixed32Bytes(v: U32)
    ensures LittleEndian(Fixed32(v)) == v
  {
    hide ToByte, LittleEndian;
    var (a, b, c, d) := (v % 256, v / 256 % 256, v / 65536 % 256, v / 16777216);
    LittleEndianFirst(d, []);
    LittleEndianFirst(c, [ToByte(d)]);
    LittleEndianFirst(b, [ToByte(c), ToByte(d)]);
    LittleEndianFirst(a, [ToByte(b), ToByte(c), ToByte(d)]);
    assert [ToByte(d)] + [] == [ToByte(d)];
    assert [ToByte(c)] + [ToByte(d)] == [ToByte(c), ToByte(d)];
    assert [ToByte(b)] + [ToByte(c), ToByte(d)] == [ToByte(b), ToByte(c), ToByte(d)];
    assert [ToByte(a)] + [ToByte(b), ToByte(c), ToByte(d)] == Fixed32(v);
    NothingEncoded();
    Digits(v);
  }

  lemma NothingEncoded()
    ensures LittleEndian([]) == 0
  {
  }

  function Pow256(k: nat): nat { if k == 0 then 1 else 256 * Pow256(k - 1) }

  lemma {:induction false} LittleEndianAppend(a: Bytes, b: Bytes)
    ensures LittleEndian(a + b) == LittleEndian(a) + Pow256(|a|) * LittleEndian(b)
    decreases |a|
  {
    if a == [] {
      assert a + b == b;
    } else {
      assert (a + b)[1..] == a[1..] + b;
      LittleEndianAppend(a[1..], b);
      hide Unsigned;
      Carry(Pow256(|a| - 1), LittleEndian(a[1..]), LittleEndian(b));
    }
  }

  lemma Carry(p: nat, x: nat, y: nat)
    ensures 256 * (x + p * y) == 256 * x + 256 * p * y
  {
  }

  lemma FourBytes()
    ensures Pow256(4) == 0x1_0000_0000
  {
    assert Pow256(2) == 65536;
  }

  /** Eight bytes hold a 64-bit number, lowest byte first. */
  lemma Put64Bytes(v: nat)
    requires v < 0x1_0000_0000 * 0x1_0000_0000
    ensures LittleEndian(Rec.Put64(v)) == v
  {
    hide LittleEndian, Fixed32, Pow256;
    var (lo, hi) := (v % 0x1_0000_0000, v / 0x1_0000_0000 % 0x1_0000_0000);
    Fixed32Bytes(lo);
    Fixed32Bytes(hi);
    LittleEndianAppend(Fixed32(lo), Fixed32(hi));
    FourBytes();
    Rec.WrapExact(v);
  }

  // ---------------------------------------------------------------- checksum

  /** A word rotated right by one bit. */
  function RotateOne(w: bv32): bv32 { (w >> 1) | (w << 31) }

  function Rotate(w: bv32, n: nat): bv32
    decreases n
  {
    if n == 0 then w else Rotate(RotateOne(w), n - 1)
  }

  function RightTwo(w: bv32): bv32 { (w >> 2) | (w << 30) }
  function RightFive(w: bv32): bv32 { (w >> 5) | (w << 27) }
  function RightFifteen(w: bv32): bv32 { (w >> 15) | (w << 17) }

  lemma TwoInAll(w: bv32)
    ensures RotateOne(RotateOne(w)) == RightTwo(w)
  {
  }

  lemma FiveInAll(w: bv32)
    ensures RotateOne(RightTwo(RightTwo(w))) == RightFive(w)
  {
  }

  lemma FifteenInAll(w: bv32)
    ensures RightFive(RightFive(RightFive(w))) == RightFifteen(w)
  {
  }

  lemma RotateTwice(w: bv32, n: nat)
    ensures Rotate(w, n + 2) == Rotate(RightTwo(w), n)
  {
    hide RotateOne, RightTwo;
    TwoInAll(w);
    assert Rotate(w, n + 2) == Rotate(RotateOne(w), n + 1);
  }

  lemma RotateFive(w: bv32, n: nat)
    ensures Rotate(w, n + 5) == Rotate(RightFive(w), n)
  {
    hide RotateOne, RightTwo, RightFive;
    RotateTwice(w, n + 3);
    RotateTwice(RightTwo(w), n + 1);
    FiveInAll(w);
  }

  /** The stored checksum is the checksum rotated right by 15 bits plus a constant. */
  lemma MaskIsRotation(crc: bv32)
    ensures Crc.Mask(crc) == Rotate(crc, 15) + 0xa282_ead8
  {
    hide Rotate, RotateOne, RightFive, RightFifteen, Crc.Mask;
    RotateFive(crc, 10);
    RotateFive(RightFive(crc), 5);
    RotateFive(RightFive(RightFive(crc)), 0);
    NoRotation(RightFive(RightFive(RightFive(crc))));
    FifteenInAll(crc);
    MaskIs(crc);
  }

  lemma MaskIs(crc: bv32)
    ensures Crc.Mask(crc) == RightFifteen(crc) + 0xa282_ead8
  {
  }

  lemma NoRotation(w: bv32)
    ensures Rotate(w, 0) == w
  {
  }

  // ------------------------------------------------------------ physical records

  /** The seven bytes before a payload: checksum, length, type. */
  lemma HeaderBytes(f: F.Frag)
    requires F.FragOk(f)
    ensures var h := F.Header(f);
            && LittleEndian(h[..4]) == Crc.Mask(Crc.Value([ToByte(f.kind)] + f.payload)) as nat
            && LittleEndian(h[4..6]) == |f.payload|
            && Unsigned(h[6]) == f.kind && |h| == 7
  {
    hide LittleEndian, Fixed32, ToByte, Crc.Mask, Crc.Value;
    var h, n := F.Header(f), |f.payload|;
    var sum := F.Checksum(ToByte(f.kind), f.payload);
    assert h[..4] == Fixed32(sum);
    Fixed32Bytes(sum);
    assert h[4..6] == [ToByte(n % 256)] + ([ToByte(n / 256)] + []);
    LittleEndianFirst(n / 256, []);
    LittleEndianFirst(n % 256, [ToByte(n / 256)] + []);
    NothingEncoded();
    ByteOf(f.kind);
  }

  lemma TagOne()
    ensures ToByte(1) == 1
  {
  }

  /** A record that fits the first block is one physical record of type 1. */
  lemma SmallRecordBytes(data: Bytes)
    requires |data| <= 32768 - 7
    ensures var s := R.LogBytes(0, [data]);
            && |s| == 7 + |data|
            && LittleEndian(s[..4]) == Crc.Mask(Crc.Value([1] + data)) as nat
            && LittleEndian(s[4..6]) == |data| && s[6] == 1 && s[7..] == data
  {
    hide LittleEndian, ToByte, Crc.Mask, Crc.Value, R.LogBytes, F.Header;
    var f := F.Frag(F.FULL, data);
    Dirty.OneFrag(0, data);
    HeaderBytes(f);
    TagOne();
    ByteOf(1);
    var s, h := F.Phys(f), F.Header(f);
    assert s[..4] == h[..4] && s[4..6] == h[4..6] && s[6] == h[6] && s[7..] == data;
    SameByte(s[6]);
  }

  lemma SameByte(b: bv8)
    ensures Unsigned(b) == 1 ==> b == 1
  {
  }

  // --------------------------------------------------------------- fragments

  function Glue(fs: seq<F.Frag>): Bytes { if fs == [] then [] else fs[0].payload + Glue(fs[1..]) }

  /** The payloads of a record's fragments, one after the other, are the record. */
  lemma {:induction false} SplitGlues(off: nat, data: Bytes, begin: bool)
    requires off <= F.BLOCK
    ensures Glue(R.Split(off, data, begin)) == data
    decreases |data|, if F.Start(off) + F.HEADER == F.BLOCK then 1 else 0
  {
    hide F.Fits;
    var n := R.Take(off, data);
    var f := F.Frag(R.KindOf(begin, n == |data|), data[..n]);
    var fs := R.Split(off, data, begin);
    if n == |data| {
      assert fs[1..] == [] && data[..n] == data;
    } else {
      assert fs[1..] == R.Split(F.EndOf(off, f), data[n..], false);
      SplitGlues(F.EndOf(off, f), data[n..], false);
    }
  }

  /** The types of n fragments: 1 for a whole record, else 2, then 3s, then 4. */
  function KindAt(begin: bool, i: nat, n: nat): nat {
    if begin && n == 1 then 1 else if begin && i == 0 then 2 else if i == n - 1 then 4 else 3
  }

  lemma {:induction false} SplitKinds(off: nat, data: Bytes, begin: bool, i: nat)
    requires off <= F.BLOCK && i < |R.Split(off, data, begin)|
    ensures R.Split(off, data, begin)[i].kind == KindAt(begin, i, |R.Split(off, data, begin)|)
    decreases |data|, if F.Start(off) + F.HEADER == F.BLOCK then 1 else 0
  {
    hide F.Fits;
    var n := R.Take(off, data);
    var f := F.Frag(R.KindOf(begin, n == |data|), data[..n]);
    if n < |data| && i > 0 {
      SplitKinds(F.EndOf(off, f), data[n..], false, i - 1);
    }
  }

  /** Every fragment but the last fills its block to the end. */
  lemma {:induction false} SplitFills(off: nat, data: Bytes, begin: bool, i: nat)
    requires off <= F.BLOCK && i + 1 < |R.Split(off, data, begin)|
    ensures var fs := R.Split(off, data, begin);
            F.Fits(off, fs[..i + 1]) && F.OffsetAfter(off, fs[..i + 1]) == 32768
    decreases |data|, if F.Start(off) + F.HEADER == F.BLOCK then 1 else 0
  {
    hide F.FragOk;
    var n := R.Take(off, data);
    var f := F.Frag(R.KindOf(begin, n == |data|), data[..n]);
    var fs := R.Split(off, data, begin);
    var o := F.EndOf(off, f);
    assert fs[1..] == R.Split(o, data[n..], false);
    if i == 0 {
      assert fs[..1] == [f] && [f][1..] == [];
    } else {
      SplitFills(o, data[n..], false, i - 1);
      assert fs[..i + 1][0] == f && fs[..i + 1][1..] == fs[1..][..i];
    }
  }

  // ----------------------------------------------------------------- records

  /** A hard state: tag 1, term, vote. */
  lemma HardStateBytes(t: nat, v: nat)
    requires Rec.Fit(D.HardState(t, v))
    ensures var r := Rec.Encode(D.HardState(t, v));
            |r| == 17 && r[0] == 1 && LittleEndian(r[1..9]) == t && LittleEndian(r[9..17]) == v
  {
    hide LittleEndian, Rec.Put64;
    var r := Rec.Encode(D.HardState(t, v));
    assert r[1..9] == Rec.Put64(t) && r[9..17] == Rec.Put64(v);
    Put64Bytes(t);
    Put64Bytes(v);
  }

  /** An entry: tag 2, term, index, length, data. */
  lemma EntryBytes(e: T.Entry)
    requires Rec.Fit(D.LogRec(e))
    ensures var r := Rec.Encode(D.LogRec(e));
            && |r| == 21 + |e.data| && r[0] == 2
            && LittleEndian(r[1..9]) == e.term && LittleEndian(r[9..17]) == e.index
            && LittleEndian(r[17..21]) == |e.data| && r[21..] == e.data
  {
    hide LittleEndian, Rec.Put64, Fixed32, Rec.Len32;
    var r := Rec.Encode(D.LogRec(e));
    assert r[1..] == Rec.Put64(e.term) + (Rec.Put64(e.index) + (Fixed32(Rec.Len32(e.data)) + e.data));
    assert r[1..9] == Rec.Put64(e.term) && r[9..17] == Rec.Put64(e.index);
    assert r[17..21] == Fixed32(Rec.Len32(e.data)) && r[21..] == e.data;
    Put64Bytes(e.term);
    Put64Bytes(e.index);
    Fixed32Bytes(Rec.Len32(e.data));
  }

  /** A truncation: tag 3, first index dropped. */
  lemma TruncateBytes(from: nat)
    requires Rec.Fit(D.Truncate(from))
    ensures var r := Rec.Encode(D.Truncate(from));
            |r| == 9 && r[0] == 3 && LittleEndian(r[1..9]) == from
  {
    hide LittleEndian, Rec.Put64;
    assert Rec.Encode(D.Truncate(from))[1..9] == Rec.Put64(from);
    Put64Bytes(from);
  }

  /** A command: tag 1 for a put and 0 for a delete, then the key and, for a put, the
      value, each after its length. */
  lemma CommandBytes(c: K.Command)
    requires K.Small(c)
    ensures var r, n := K.Encode(c), |c.key|;
            && |r| == 5 + n + (if c.Put? then 4 + |c.value| else 0)
            && r[0] == (if c.Put? then 1 else 0)
            && LittleEndian(r[1..5]) == n && r[5..5 + n] == c.key
            && (c.Put? ==> LittleEndian(r[5 + n..9 + n]) == |c.value| && r[9 + n..] == c.value)
  {
    hide LittleEndian, Fixed32, K.Low32;
    var r, n := K.Encode(c), |c.key|;
    assert r[1..5] == Fixed32(K.Low32(n)) && r[5..5 + n] == c.key;
    Fixed32Bytes(K.Low32(n));
    if c.Put? {
      assert r[5 + n..9 + n] == Fixed32(K.Low32(|c.value|)) && r[9 + n..] == c.value;
      Fixed32Bytes(K.Low32(|c.value|));
    }
  }
}
