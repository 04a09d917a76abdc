/** A log cut strictly inside a physical record and then resumed: exactly what is
    lost. The writer goes on right behind the torn bytes, and the reader drops the
    rest of that block. */
module WalDirtyCut {
  import opened Coding
  import opened WalFormat
  import opened WalRecords
  import opened WalRecovery

  /** What the reader has in its buffer when it comes to the torn bytes q, at block
      offset start, with more appended behind them. */
  function Front(start: nat, q: Bytes, more: Bytes): Bytes
    requires start <= BLOCK
  {
    if start + |q| + |more| < BLOCK then q + more else (q + more)[..BLOCK - start]
  }

  /** The buffer does not happen to start with padding or with a physical record
      whose checksum is right. */
  predicate Refused(buf: Bytes) {
    || |buf| < HEADER
    || HEADER + PayloadLength(buf) > |buf|
    || (!(OfByte(buf[6]) == ZERO && PayloadLength(buf) == 0) && !ChecksumOk(buf))
  }

  lemma RefusedBlock(buf: Bytes, last: bool)
    requires Refused(buf)
    ensures ParseBlock(buf, last) == [Dropped(|buf|)] || (ParseBlock(buf, last) == [] && (last || |buf| < HEADER))
  {
    hide ChecksumOk, PayloadLength, OfByte;
  }

  /** Nothing appended in the torn block is read; the next block is. */
  lemma RefusedParse(start: nat, q: Bytes, o: nat, gs: seq<Frag>) returns (dropped: bool, n: nat)
    requires start + HEADER <= BLOCK && start <= o <= BLOCK && |q| == o - start
    requires Fits(o, gs) && Refused(Front(start, q, Lay(o, gs)))
    ensures var later := gs[InBlock(o, gs)..];
            && ParseFrom(start, q + Lay(o, gs)) == (if dropped then [Dropped(n)] + Events(later) else [])
            && (!dropped ==> later == [])
  {
    hide ParseBlock, ParseFile, Fits, Lay, InBlock, Refused;
    var rest := Lay(o, gs);
    var later, buf := gs[InBlock(o, gs)..], Front(start, q, rest);
    SkipBlock(o, gs);
    n := |buf|;
    if o + |rest| < BLOCK {
      RefusedBlock(buf, true);
      dropped := ParseBlock(buf, true) != [];
      assert [Dropped(n)] + Events(later) == [Dropped(n)];
    } else {
      RefusedBlock(buf, false);
      dropped := true;
      assert (q + rest)[BLOCK - start..] == rest[BLOCK - o..];
      LayReads(later);
    }
  }

  lemma EmptyTail(off: nat, recs: seq<Bytes>)
    requires off <= BLOCK
    ensures Untouched(off, recs, 0, |SplitAll(off, recs)|) == []
  {
    hide Assemble, Split, Fits, SplitAll, Untouched;
    var fs := SplitAll(off, recs);
    AssembleTail(off, recs, 0, |fs|);
    assert Events(fs[|fs|..]) == [];
    AssembleNothing(false, []);
  }

  /** The records before the cut, and those after it that keep out of its block. */
  lemma AssembleDirty(first: seq<Bytes>, k: nat, off: nat, recs: seq<Bytes>, e: nat, dropped: bool, n: nat)
    requires k <= |SplitAll(0, first)| && off <= BLOCK && e <= |SplitAll(off, recs)|
    requires !dropped ==> e == |SplitAll(off, recs)|
    ensures var later := if dropped then [Dropped(n)] + Events(SplitAll(off, recs)[e..]) else [];
            Assemble(Events(SplitAll(0, first)[..k]) + later, false, []).records
            == Completed(0, first, k) + Untouched(off, recs, 0, e)
  {
    hide Assemble, SplitAll, Split, Completed, Untouched, Fits;
    var tail := Events(SplitAll(off, recs)[e..]);
    var later := if dropped then [Dropped(n)] + tail else [];
    var inFrag, scratch := AssemblePiece(0, first, k, false, [], later);
    if dropped {
      AfterDrop(n, tail, inFrag, scratch);
      AssembleTail(off, recs, 0, e);
    } else {
      AssembleNothing(inFrag, scratch);
      EmptyTail(off, recs);
    }
  }

  /** The file cut m bytes into fragment k of the log of first. */
  function TornAt(first: seq<Bytes>, k: nat, m: nat): Bytes
    requires k < |SplitAll(0, first)| && Fits(0, SplitAll(0, first)[..k]) && FragOk(SplitAll(0, first)[k])
    requires m <= |Phys(SplitAll(0, first)[k])|
  {
    var fs := SplitAll(0, first);
    Lay(0, fs[..k]) + Pad(OffsetAfter(0, fs[..k])) + Phys(fs[k])[..m]
  }

  /** A cut strictly inside a physical record. */
  ghost predicate DirtyCut(first: seq<Bytes>, k: nat, m: nat) {
    var fs := SplitAll(0, first);
    && k < |fs| && Fits(0, fs[..k]) && FragOk(fs[k]) && EndOf(OffsetAfter(0, fs[..k]), fs[k]) <= BLOCK
    && 0 < m < |Phys(fs[k])|
  }

  /** Every such cut is a prefix of the log. */
  lemma TornIsPrefix(first: seq<Bytes>, k: nat, m: nat)
    requires DirtyCut(first, k, m)
    ensures TornAt(first, k, m) <= LogBytes(0, first)
  {
    hide Lay, Fits, Phys, Pad, SplitAll, OffsetAfter, EndOf;
    LayAround(SplitAll(0, first), k);
  }

  /** Where the torn record starts in its block. */
  function TornStart(first: seq<Bytes>, k: nat): nat
    requires k < |SplitAll(0, first)| && Fits(0, SplitAll(0, first)[..k])
  {
    Start(OffsetAfter(0, SplitAll(0, first)[..k]))
  }

  lemma TornSeed(first: seq<Bytes>, k: nat, m: nat)
    requires DirtyCut(first, k, m)
    ensures TornStart(first, k) + m < BLOCK && |TornAt(first, k, m)| % BLOCK == TornStart(first, k) + m
  {
    hide Fits, Lay, Phys, SplitAll, OffsetAfter;
    var fs := SplitAll(0, first)[..k];
    var e := OffsetAfter(0, fs);
    LayLength(0, fs);
    var q: nat :| 0 + |Lay(0, fs)| == q * BLOCK + e;
    var q' := if BLOCK - e < HEADER then q + 1 else q;
    assert |Lay(0, fs)| + |Pad(e)| == q' * BLOCK + Start(e);
    ModUnique(q', Start(e) + m);
  }

  /** The reader's view of the torn record, with recs appended by a reopened writer. */
  ghost function FrontAfter(first: seq<Bytes>, k: nat, m: nat, recs: seq<Bytes>): Bytes
    requires DirtyCut(first, k, m)
  {
    Front(TornStart(first, k), Phys(SplitAll(0, first)[k])[..m], LogBytes(|TornAt(first, k, m)| % BLOCK, recs))
  }

  /** How many fragments of recs land in the block of the cut. */
  ghost function InTornBlock(first: seq<Bytes>, k: nat, m: nat, recs: seq<Bytes>): nat
    requires DirtyCut(first, k, m)
  {
    var seed := |TornAt(first, k, m)| % BLOCK;
    InBlock(seed, SplitAll(seed, recs))
  }

  lemma DirtyParse(first: seq<Bytes>, k: nat, m: nat, recs: seq<Bytes>) returns (dropped: bool, n: nat)
    requires DirtyCut(first, k, m) && Refused(FrontAfter(first, k, m, recs))
    ensures var seed := |TornAt(first, k, m)| % BLOCK;
            var later := SplitAll(seed, recs)[InTornBlock(first, k, m, recs)..];
            && ParseFile(TornAt(first, k, m) + LogBytes(seed, recs))
               == Events(SplitAll(0, first)[..k]) + (if dropped then [Dropped(n)] + Events(later) else [])
            && (!dropped ==> later == [])
  {
    hide ParseFile, ParseFrom, Lay, Fits, Phys, Pad, SplitAll, OffsetAfter, InBlock, Refused, Front, EndOf;
    TornSeed(first, k, m);
    var fs, f := SplitAll(0, first)[..k], SplitAll(0, first)[k];
    var off := OffsetAfter(0, fs);
    var q, more := Phys(f)[..m], LogBytes(|TornAt(first, k, m)| % BLOCK, recs);
    var file := TornAt(first, k, m) + more;
    assert file == Lay(0, fs) + (Pad(off) + (q + more));
    ParseStart(file);
    ParseLay(0, fs, Pad(off) + (q + more));
    ParsePad(off, q + more);
    dropped, n := RefusedParse(Start(off), q, Start(off) + m, SplitAll(Start(off) + m, recs));
  }

  /** Resuming after a cut strictly inside a physical record. Unless the bytes at
      the cut happen to pass for a record, the reader delivers exactly the records
      completed before the cut and those later ones that have no fragment in the
      block of the cut. */
  lemma DirtyResume(first: seq<Bytes>, k: nat, m: nat, recs: seq<Bytes>)
    requires DirtyCut(first, k, m) && Refused(FrontAfter(first, k, m, recs))
    ensures var seed := |TornAt(first, k, m)| % BLOCK;
            ReadAll(TornAt(first, k, m) + LogBytes(seed, recs)).records
            == Completed(0, first, k) + Untouched(seed, recs, 0, InTornBlock(first, k, m, recs))
  {
    hide ParseFile, Assemble, SplitAll, Completed, Untouched, InBlock, Refused, FrontAfter, TornAt, Lay;
    hide Fits, FragOk, Phys, EndOf, OffsetAfter;
    var dropped, n := DirtyParse(first, k, m, recs);
    AssembleDirty(first, k, |TornAt(first, k, m)| % BLOCK, recs, InTornBlock(first, k, m, recs), dropped, n);
  }

  lemma {:induction false} UntouchedBound(off: nat, recs: seq<Bytes>, lo: int, hi: int)
    requires off <= BLOCK
    ensures |Untouched(off, recs, lo, hi)| <= |recs|
    decreases |recs|
  {
    hide Split, OffsetAfter;
    if recs != [] {
      var f := Split(off, recs[0], true);
      UntouchedBound(OffsetAfter(off, f), recs[1..], lo - |f|, hi - |f|);
    }
  }

  lemma NothingLost(off: nat, recs: seq<Bytes>)
    requires off <= BLOCK
    ensures Untouched(off, recs, 0, InBlock(off, SplitAll(off, recs))) == recs
            <==> recs == [] || BLOCK - off < HEADER
  {
    hide Split, OffsetAfter, Fits, EndOf;
    var e := InBlock(off, SplitAll(off, recs));
    if recs == [] || BLOCK - off < HEADER {
      AllUntouched(off, recs, 0, 0);
    } else {
      var f := Split(off, recs[0], true);
      assert e > 0;
      UntouchedBound(OffsetAfter(off, f), recs[1..], 0 - |f|, e - |f|);
    }
  }

  /** Exactly when everything written after such a cut survives: nothing was written,
      or the cut left no room for a header, so that writing went on in a new block. */
  lemma DirtyDurable(first: seq<Bytes>, k: nat, m: nat, recs: seq<Bytes>)
    requires DirtyCut(first, k, m) && Refused(FrontAfter(first, k, m, recs))
    ensures var seed := |TornAt(first, k, m)| % BLOCK;
            ReadAll(TornAt(first, k, m) + LogBytes(seed, recs)).records == Completed(0, first, k) + recs
            <==> recs == [] || BLOCK - seed < HEADER
  {
    hide ReadAll, LogBytes, SplitAll, Completed, Untouched, InBlock, Refused, FrontAfter, TornAt;
    hide Fits, FragOk, Phys, EndOf, OffsetAfter;
    var seed := |TornAt(first, k, m)| % BLOCK;
    var kept := Untouched(seed, recs, 0, InTornBlock(first, k, m, recs));
    DirtyResume(first, k, m, recs);
    NothingLost(seed, recs);
    assert Completed(0, first, k) + kept == Completed(0, first, k) + recs <==> kept == recs by {
      SamePrefix(Completed(0, first, k), kept, recs);
    }
  }

  lemma SamePrefix(a: seq<Bytes>, b: seq<Bytes>, c: seq<Bytes>)
    ensures a + b == a + c <==> b == c
  {
    if a + b == a + c {
      assert b == (a + b)[|a|..] && c == (a + c)[|a|..];
    }
  }

  // When the bytes at the cut are certain to be refused.

  /** The header survived, and what was appended fits inside the missing part. */
  lemma SwallowedRefused(f: Frag, m: nat, more: Bytes)
    requires FragOk(f) && HEADER <= m && m + |more| < |Phys(f)|
    ensures Refused(Phys(f)[..m] + more) && ParseBlock(Phys(f)[..m] + more, true) == []
  {
    hide OfByte, Decode32, ToByte, ChecksumOk, Checksum;
    HeaderFields(f, []);
    var q := Phys(f)[..m] + more;
    assert Phys(f) + [] == Phys(f);
    assert q[4] == Phys(f)[4] && q[5] == Phys(f)[5];
  }

  /** At most four payload bytes are missing, and others took their place. */
  lemma ShortLossRefused(f: Frag, m: nat, w: Bytes, rest: Bytes)
    requires FragOk(f) && HEADER <= m < |Phys(f)| <= m + 4
    requires |w| == |Phys(f)| - m && w != f.payload[m - HEADER..]
    ensures Refused(Phys(f)[..m] + w + rest)
  {
    hide ChecksumOk, PayloadLength, OfByte, Header, DamagedPhys;
    var d := Damage(f.payload[..m - HEADER], f.payload[m - HEADER..], w, []);
    assert Phys(f)[..m] + w + rest == DamagedPhys(f, d) + rest by { TornAsDamage(f, m, w); }
    assert f.payload == d.before + d.v + d.after;
    DamageDetected(f, d, rest);
  }

  lemma TornAsDamage(f: Frag, m: nat, w: Bytes)
    requires FragOk(f) && HEADER <= m < |Phys(f)| && |w| == |Phys(f)| - m
    ensures Phys(f)[..m] + w == DamagedPhys(f, Damage(f.payload[..m - HEADER], f.payload[m - HEADER..], w, []))
  {
    hide Header;
    assert Phys(f)[..m] == Header(f) + f.payload[..m - HEADER];
    assert f.payload[..m - HEADER] + w + [] == f.payload[..m - HEADER] + w;
  }

  /** In that case nothing appended is delivered, whatever it is. */
  lemma SwallowedTail(fs: seq<Frag>, f: Frag, m: nat, more: Bytes)
    requires Fits(0, fs) && FragOk(f) && EndOf(OffsetAfter(0, fs), f) <= BLOCK
    requires HEADER <= m && m + |more| < |Phys(f)|
    ensures ReadAll(Lay(0, fs) + Pad(OffsetAfter(0, fs)) + Phys(f)[..m] + more) == ReadAll(Lay(0, fs))
  {
    hide ParseFile, ParseFrom, Lay, Fits, Pad, Assemble, Refused;
    var off := OffsetAfter(0, fs);
    var q := Phys(f)[..m] + more;
    assert Lay(0, fs) + Pad(off) + Phys(f)[..m] + more == Lay(0, fs) + (Pad(off) + q);
    LayReads(fs);
    ParseStart(Lay(0, fs) + (Pad(off) + q));
    ParseLay(0, fs, Pad(off) + q);
    ParsePad(off, q);
    SwallowedRefused(f, m, more);
    ShortBlock(Start(off), q);
    assert Events(fs) + [] == Events(fs);
  }

  /** Resuming right after such a cut loses an acknowledged write: the record
      added to the reopened log is not delivered by the next read. */
  lemma LostWrite(first: Bytes, second: Bytes)
    requires HEADER + |second| < |first| <= BLOCK - HEADER
    ensures HEADER <= |LogBytes(0, [first])|
    ensures var torn := LogBytes(0, [first])[..HEADER];
            && ReadAll(torn) == Reading([], [])
            && ReadAll(torn + LogBytes(|torn| % BLOCK, [second])) == Reading([], [])
  {
    hide ParseFile, ParseBlock, Assemble, Header;
    var f := Frag(FULL, first);
    OneFrag(0, first);
    OneFrag(HEADER, second);
    var torn := LogBytes(0, [first])[..HEADER];
    assert torn == Phys(f)[..HEADER];
    var more := LogBytes(|torn| % BLOCK, [second]);
    NoLay(0);
    assert Lay(0, []) + Pad(0) + torn + more == torn + more;
    assert Lay(0, []) + Pad(0) + torn + [] == torn;
    SwallowedTail([], f, HEADER, more);
    SwallowedTail([], f, HEADER, []);
    RoundTrip([]);
  }

  lemma OneFrag(off: nat, data: Bytes)
    requires off + HEADER + |data| <= BLOCK
    ensures LogBytes(off, [data]) == Phys(Frag(FULL, data))
  {
    hide Phys;
    var f := Frag(FULL, data);
    assert data[..|data|] == data;
    assert Split(off, data, true) == [f];
    assert [data][1..] == [];
    assert SplitAll(off, [data]) == [f];
    assert [f][1..] == [];
    assert Lay(off, [f]) == Pad(off) + Phys(f) + [];
  }
}
