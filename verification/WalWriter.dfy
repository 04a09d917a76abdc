/** The log writer: an object that fragments each record over blocks while it
    appends to its file. */
module WalWriter {
  import opened Coding
  import opened WalFormat
  import opened WalRecords
  import WalRecovery
  import Crc = Crc32c

  class Writer {
    var dest: Bytes
    var blockOffset: nat
    const table: array<bv32>
    const typeCrc: array<bv32>

    /** The cursor is the file length modulo the block size (a filled block may
        still be counted as the current one). */
    ghost predicate Valid()
      reads this, table, typeCrc
    {
      && Crc.IsTable(table) && typeCrc.Length == LAST + 1
      && (forall k | 0 <= k <= LAST :: typeCrc[k] == Crc.Value([ToByte(k)]))
      && Aligned(blockOffset, dest)
    }

    /** Resumes a file that already holds contents. */
    constructor (contents: Bytes)
      ensures Valid() && dest == contents && blockOffset < BLOCK && fresh(table) && fresh(typeCrc)
    {
      hide Crc.Extend, Crc.TableEntry;
      dest := contents;
      blockOffset := |contents| % BLOCK;
      var crcs := new bv32[LAST + 1];
      var t := Crc.MakeTable();
      for k := 0 to LAST + 1
        invariant Crc.IsTable(t)
        invariant forall j | 0 <= j < k :: crcs[j] == Crc.Value([ToByte(j)])
      {
        crcs[k] := Crc.ExtendByTable(t, 0, [ToByte(k)]);
      }
      table, typeCrc := t, crcs;
    }

    method EmitPhysicalRecord(kind: nat, payload: Bytes)
      requires Valid() && FULL <= kind <= LAST && blockOffset + HEADER + |payload| <= BLOCK
      modifies this`dest, this`blockOffset
      ensures Valid() && dest == old(dest) + Phys(Frag(kind, payload))
      ensures blockOffset == old(blockOffset) + HEADER + |payload|
    {
      hide Crc.Value, Crc.Extend, Crc.Mask, ToByte, Fixed32, Aligned;
      var header := new bv8[HEADER];
      header[4] := ToByte(|payload| % 256);
      header[5] := ToByte(|payload| / 256);
      header[6] := ToByte(kind);
      var crc := Crc.ExtendByTable(table, typeCrc[kind], payload);
      ChecksumChains(kind, payload);
      EncodeFixed32(header, Crc.Mask(crc) as nat);
      assert header[..] == Header(Frag(kind, payload)) by {
        assert header[..] == header[..4] + header[4..];
      }
      dest := dest + header[..];
      dest := dest + payload;
      assert dest == old(dest) + Phys(Frag(kind, payload));
      AlignedAppend(blockOffset, old(dest), Phys(Frag(kind, payload)));
      blockOffset := blockOffset + HEADER + |payload|;
    }

    /** Pads a block that has no room for a header and moves to the next one. */
    method MakeRoom()
      requires Valid() && blockOffset <= BLOCK
      modifies this`dest, this`blockOffset
      ensures Valid() && dest == old(dest) + Pad(old(blockOffset)) && blockOffset == Start(old(blockOffset))
    {
      hide Aligned, Crc.Value;
      var leftover := BLOCK - blockOffset;
      if leftover < HEADER {
        AlignedPad(blockOffset, dest);
        if leftover > 0 {
          dest := dest + Zeros(leftover);
        }
        assert dest == old(dest) + Zeros(leftover);
        blockOffset := 0;
      }
    }

    /** Appends the record, in as many fragments as its blocks require. */
    method AddRecord(data: Bytes)
      requires Valid()
      modifies this`dest, this`blockOffset
      ensures Valid() && dest == Append(old(dest), [data])
    {
      hide Split, Lay, Fits, Phys, Pad, Start, Valid, LogBytes, KindOf, Append, Aligned;
      ValidOffset();
      var ptr, begin := 0, true;
      assert data[0..] == data;
      ghost var whole := Lay(blockOffset, Split(blockOffset, data, true));
      while true
        invariant ptr <= |data| && Valid() && blockOffset <= BLOCK
        invariant dest + Lay(blockOffset, Split(blockOffset, data[ptr..], begin)) == old(dest) + whole
        decreases |data| - ptr, if Start(blockOffset) + HEADER == BLOCK then 1 else 0
      {
        ghost var off, rest, sofar := blockOffset, data[ptr..], dest;
        LayNext(off, rest, begin);
        MakeRoom();
        var left := |data| - ptr;
        var avail := BLOCK - blockOffset - HEADER;
        var n := if left < avail then left else avail;
        assert rest[..n] == data[ptr..ptr + n] && rest[n..] == data[ptr + n..];
        var kind := KindOf(begin, left == n);
        EmitPhysicalRecord(kind, data[ptr..ptr + n]);
        ghost var more := if n == left then [] else Lay(blockOffset, Split(blockOffset, rest[n..], false));
        assert dest + more == sofar + (Pad(off) + Phys(Frag(kind, rest[..n])) + more);
        ptr := ptr + n;
        begin := false;
        if ptr == |data| {
          break;
        }
      }
      OneRecord(old(blockOffset), data);
      assert dest == old(dest) + LogBytes(old(blockOffset), [data]);
      SameCursor(old(blockOffset), old(dest), [data]);
    }

    lemma ValidOffset()
      requires Valid()
      ensures Aligned(blockOffset, dest) && blockOffset <= BLOCK
    {
    }
  }

  /** The writer's cursor against the bytes in the file. */
  ghost predicate Aligned(off: nat, file: Bytes) {
    off <= BLOCK && off % BLOCK == |file| % BLOCK
  }

  lemma AlignedAppend(off: nat, file: Bytes, s: Bytes)
    requires Aligned(off, file) && off + |s| <= BLOCK
    ensures Aligned(off + |s|, file + s)
  {
  }

  lemma AlignedPad(off: nat, file: Bytes)
    requires Aligned(off, file)
    ensures Aligned(0, file + Zeros(BLOCK - off))
  {
  }

  lemma ChecksumChains(kind: nat, payload: Bytes)
    requires kind < 256
    ensures Crc.Extend(Crc.Value([ToByte(kind)]), payload) == Crc.Value([ToByte(kind)] + payload)
  {
    hide Crc.Extend;
    Crc.ExtendChains(0, [ToByte(kind)], payload);
  }

  /** One round of the fragmentation loop. */
  lemma LayNext(off: nat, data: Bytes, begin: bool)
    requires off <= BLOCK
    ensures var n := Take(off, data);
            var f := Frag(KindOf(begin, n == |data|), data[..n]);
            && FULL <= f.kind <= LAST && FragOk(f) && EndOf(off, f) <= BLOCK
            && (EndOf(off, f) == Start(off) + HEADER + n)
            && (Start(off) + HEADER == BLOCK && n < |data| ==> Start(EndOf(off, f)) == 0)
            && Lay(off, Split(off, data, begin))
               == Pad(off) + Phys(f)
                  + (if n == |data| then [] else Lay(EndOf(off, f), Split(EndOf(off, f), data[n..], false)))
  {
    hide Phys, Pad;
    var n := Take(off, data);
    var f := Frag(KindOf(begin, n == |data|), data[..n]);
    var fs := Split(off, data, begin);
    assert fs[0] == f && fs[1..] == if n == |data| then [] else Split(EndOf(off, f), data[n..], false);
  }

  lemma OneRecord(off: nat, data: Bytes)
    requires off <= BLOCK
    ensures LogBytes(off, [data]) == Lay(off, Split(off, data, true))
  {
    hide Lay, Split, Fits, OffsetAfter;
    var a := Split(off, data, true);
    assert [data][1..] == [];
    assert SplitAll(off, [data]) == a + SplitAll(OffsetAfter(off, a), []) == a;
  }

  // ------------------------------------------------------- growing a log

  lemma {:induction false} SameFromZero(recs: seq<Bytes>)
    ensures LogBytes(BLOCK, recs) == LogBytes(0, recs)
  {
    hide Fits;
    if recs != [] {
      var a := Split(BLOCK, recs[0], true);
      SplitFromZero(recs[0]);
      assert OffsetAfter(BLOCK, a) == OffsetAfter(0, a);
      var fs := SplitAll(0, recs);
      assert Pad(0) == Pad(BLOCK) == [] && EndOf(0, fs[0]) == EndOf(BLOCK, fs[0]);
    }
  }

  lemma SplitFromZero(data: Bytes)
    ensures Split(BLOCK, data, true) == Split(0, data, true)
  {
    assert Start(BLOCK) == Start(0) == 0;
  }

  /** The file after a writer opened on it added recs. */
  function Append(file: Bytes, recs: seq<Bytes>): Bytes {
    file + LogBytes(|file| % BLOCK, recs)
  }

  /** A filled block and a new one are the same place. */
  lemma SameCursor(off: nat, file: Bytes, recs: seq<Bytes>)
    requires Aligned(off, file)
    ensures file + LogBytes(off, recs) == Append(file, recs)
  {
    hide LogBytes;
    if off == BLOCK {
      SameFromZero(recs);
    }
  }

  lemma AppendNothing(file: Bytes)
    ensures Append(file, []) == file
  {
  }

  lemma AppendExtends(file: Bytes, recs: seq<Bytes>)
    ensures file <= Append(file, recs)
  {
    hide LogBytes;
  }

  lemma AppendFirst(recs: seq<Bytes>)
    ensures Append([], recs) == LogBytes(0, recs)
  {
    hide LogBytes;
  }

  /** Appending in two sessions is appending in one: closing a log and resuming
      it leaves no trace in the file. */
  lemma AppendTwice(file: Bytes, a: seq<Bytes>, b: seq<Bytes>)
    ensures Append(Append(file, a), b) == Append(file, a + b)
  {
    hide Lay, Fits, SplitAll, OffsetAfter;
    var off := |file| % BLOCK;
    var fs := SplitAll(off, a);
    var e := OffsetAfter(off, fs);
    WalRecovery.LayLength(off, fs);
    var q: nat :| off + |Lay(off, fs)| == q * BLOCK + e;
    CursorAfter(|file|, |Lay(off, fs)|, q, e);
    SameCursor(e, Append(file, a), b);
    SplitAllAppend(off, a, b);
    FitsAppend(off, fs, SplitAll(e, b));
    assert Append(file, a) + LogBytes(e, b) == file + (Lay(off, fs) + LogBytes(e, b));
  }

  lemma CursorAfter(n: nat, k: nat, q: nat, e: nat)
    requires n % BLOCK + k == q * BLOCK + e
    ensures (n + k) % BLOCK == e % BLOCK
  {
    var p := n / BLOCK;
    assert n + k == (p + q) * BLOCK + e;
    AddBlocks(e, p + q);
  }

  lemma {:induction false} AddBlocks(e: nat, q: nat)
    ensures (q * BLOCK + e) % BLOCK == e % BLOCK
  {
    if q > 0 {
      AddBlocks(e, q - 1);
      assert q * BLOCK + e == ((q - 1) * BLOCK + e) + BLOCK;
    }
  }
}
