/** Logs that were not written in one go: resumed after a clean cut, or damaged in
    a few payload bytes. */
module WalRecovery {
  import opened Coding
  import opened WalFormat
  import opened WalRecords
  import Crc = Crc32c

  // --------------------------------------------------------------- resuming

  /** One writer session: the records it added, how many of their fragments
      survived, and how many zeros of the trailer after them. */
  datatype Session = Session(recs: seq<Bytes>, frags: nat, zeros: nat)

  /** A session together with the block offset its writer was seeded with. */
  datatype Piece = Piece(off: nat, recs: seq<Bytes>, frags: nat)

  ghost predicate PieceOk(p: Piece) { p.off <= BLOCK && p.frags <= |SplitAll(p.off, p.recs)| }

  function PieceFrags(p: Piece): seq<Frag>
    requires PieceOk(p)
  {
    SplitAll(p.off, p.recs)[..p.frags]
  }

  /** A cut at a physical-record boundary or inside the zero trailer after it. */
  ghost predicate CleanCut(off: nat, s: Session)
    requires off <= BLOCK
  {
    var fs := SplitAll(off, s.recs);
    && s.frags <= |fs|
    && (s.frags == |fs| ==> s.zeros == 0)
    && Fits(off, fs[..s.frags])
    && s.zeros <= |Pad(OffsetAfter(off, fs[..s.frags]))|
  }

  /** What is left of the session's output after the cut. */
  ghost function Kept(off: nat, s: Session): Bytes
    requires off <= BLOCK && CleanCut(off, s)
  {
    Lay(off, SplitAll(off, s.recs)[..s.frags]) + Zeros(s.zeros)
  }

  /** The cut keeps a prefix of what the writer wrote. */
  lemma KeptIsPrefix(off: nat, s: Session)
    requires off <= BLOCK && CleanCut(off, s)
    ensures Kept(off, s) <= LogBytes(off, s.recs)
  {
    hide Phys, Fits, Split, SplitAll;
    var fs := SplitAll(off, s.recs);
    FitsSplit(off, fs, s.frags);
    var o := OffsetAfter(off, fs[..s.frags]);
    if s.frags < |fs| {
      LayFirst(o, fs[s.frags..]);
      assert Zeros(s.zeros) <= Pad(o);
    }
  }

  lemma LayFirst(off: nat, fs: seq<Frag>)
    requires Fits(off, fs) && fs != []
    ensures Pad(off) <= Lay(off, fs)
  {
    hide Phys;
  }

  /** The file left by the sessions so far; each writer is seeded with the length
      of the file it finds. */
  ghost function FileAfter(ss: seq<Session>): Bytes
    requires AllClean(ss)
    decreases |ss|, 1
  {
    if ss == [] then []
    else
      var f := FileAfter(ss[..|ss| - 1]);
      f + Kept(|f| % BLOCK, ss[|ss| - 1])
  }

  ghost predicate AllClean(ss: seq<Session>)
    decreases |ss|, 0
  {
    ss == [] || (AllClean(ss[..|ss| - 1]) && CleanCut(|FileAfter(ss[..|ss| - 1])| % BLOCK, ss[|ss| - 1]))
  }

  /** The records all of whose fragments are among the first k. */
  function Completed(off: nat, recs: seq<Bytes>, k: nat): seq<Bytes>
    requires off <= BLOCK
    decreases |recs|
  {
    if recs == [] then []
    else
      var f := Split(off, recs[0], true);
      if |f| <= k then [recs[0]] + Completed(OffsetAfter(off, f), recs[1..], k - |f|) else []
  }

  /** The completed records of all sessions, in order. */
  ghost function AllCompleted(ss: seq<Session>): seq<Bytes>
    requires AllClean(ss)
    decreases |ss|
  {
    if ss == [] then []
    else
      var s := ss[|ss| - 1];
      AllCompleted(ss[..|ss| - 1]) + Completed(|FileAfter(ss[..|ss| - 1])| % BLOCK, s.recs, s.frags)
  }

  // Offsets are file lengths modulo the block size.

  lemma {:induction false} LayLength(off: nat, fs: seq<Frag>)
    requires Fits(off, fs)
    ensures exists q: nat :: off + |Lay(off, fs)| == q * BLOCK + OffsetAfter(off, fs)
    decreases |fs|
  {
    hide Phys, FragOk;
    if fs == [] {
      assert off + |Lay(off, fs)| == 0 * BLOCK + OffsetAfter(off, fs);
    } else {
      var o := EndOf(off, fs[0]);
      LayLength(o, fs[1..]);
      var q: nat :| o + |Lay(o, fs[1..])| == q * BLOCK + OffsetAfter(o, fs[1..]);
      var q' := if BLOCK - off < HEADER then q + 1 else q;
      assert off + |Lay(off, fs)| == q' * BLOCK + OffsetAfter(off, fs);
    }
  }

  /** file is a layout of fs followed by part of a trailer. */
  ghost predicate Image(file: Bytes, fs: seq<Frag>, z: nat) {
    && Fits(0, fs) && z <= |Pad(OffsetAfter(0, fs))|
    && file == Lay(0, fs) + Zeros(z)
  }

  /** The offset a writer is seeded with, seen from the last fragment. */
  function Seed(e: nat, z: nat): nat { if e + z == BLOCK then 0 else e + z }

  lemma SeedOfLength(file: Bytes, fs: seq<Frag>, z: nat)
    requires Image(file, fs, z)
    ensures |file| % BLOCK == Seed(OffsetAfter(0, fs), z)
  {
    hide Fits, Lay;
    LayLength(0, fs);
    var e := OffsetAfter(0, fs);
    var q: nat :| 0 + |Lay(0, fs)| == q * BLOCK + e;
    assert |file| == q * BLOCK + (e + z) && e + z <= BLOCK;
    if e + z == BLOCK {
      assert |file| == (q + 1) * BLOCK + 0;
      ModUnique(q + 1, 0);
    } else {
      ModUnique(q, e + z);
    }
  }

  lemma ModUnique(q: nat, r: nat)
    requires r < BLOCK
    ensures (q * BLOCK + r) % BLOCK == r
  {
  }

  /** Finishing a trailer and going on is the same as not having stopped. */
  lemma LayFromSeed(e: nat, z: nat, gs: seq<Frag>)
    requires e <= BLOCK && z <= |Pad(e)| && gs != [] && Fits(Seed(e, z), gs)
    ensures Fits(e, gs) && Zeros(z) + Lay(Seed(e, z), gs) == Lay(e, gs)
    ensures OffsetAfter(e, gs) == OffsetAfter(Seed(e, z), gs)
  {
    hide Phys, FragOk, Pad, Zeros, Seed, Start;
    var w := Seed(e, z);
    PadInTwo(e, z);
    var more := Phys(gs[0]) + Lay(EndOf(w, gs[0]), gs[1..]);
    assert Lay(w, gs) == Pad(w) + more;
    assert Zeros(z) + (Pad(w) + more) == (Zeros(z) + Pad(w)) + more;
  }

  lemma PadInTwo(e: nat, z: nat)
    requires e <= BLOCK && z <= |Pad(e)|
    ensures Seed(e, z) <= BLOCK && Start(Seed(e, z)) == Start(e) && Zeros(z) + Pad(Seed(e, z)) == Pad(e)
  {
  }

  lemma ResumeEmpty(file: Bytes, fs: seq<Frag>, z: nat, y: nat)
    requires Image(file, fs, z)
    requires y <= |Pad(Seed(OffsetAfter(0, fs), z))|
    ensures Image(file + Zeros(y), fs, z + y)
  {
    hide Lay, Fits;
    assert Zeros(z) + Zeros(y) == Zeros(z + y);
  }

  lemma ResumeSome(file: Bytes, fs: seq<Frag>, z: nat, gs: seq<Frag>, y: nat)
    requires Image(file, fs, z) && gs != []
    requires Fits(Seed(OffsetAfter(0, fs), z), gs)
    requires y <= |Pad(OffsetAfter(Seed(OffsetAfter(0, fs), z), gs))|
    ensures Image(file + (Lay(Seed(OffsetAfter(0, fs), z), gs) + Zeros(y)), fs + gs, y)
  {
    hide Lay, Fits, Pad, Seed, Zeros;
    var e := OffsetAfter(0, fs);
    LayFromSeed(e, z, gs);
    FitsAppend(0, fs, gs);
    var w := Lay(Seed(e, z), gs);
    assert file + (w + Zeros(y)) == Lay(0, fs) + (Zeros(z) + w) + Zeros(y);
  }

  lemma ResumeImage(file: Bytes, fs: seq<Frag>, z: nat, s: Session)
    requires Image(file, fs, z) && CleanCut(|file| % BLOCK, s)
    ensures exists z' :: Image(file + Kept(|file| % BLOCK, s), fs + SplitAll(|file| % BLOCK, s.recs)[..s.frags], z')
  {
    hide Image, Lay, SplitAll, Fits, Seed, Pad, Zeros, OffsetAfter;
    SeedOfLength(file, fs, z);
    var w := |file| % BLOCK;
    var gs := SplitAll(w, s.recs)[..s.frags];
    if gs == [] {
      NoLay(w);
      assert fs + gs == fs;
      assert Kept(w, s) == Zeros(s.zeros);
      ResumeEmpty(file, fs, z, s.zeros);
    } else {
      ResumeSome(file, fs, z, gs, s.zeros);
      assert Image(file + Kept(w, s), fs + gs, s.zeros);
    }
  }

  lemma NoLay(off: nat)
    requires off <= BLOCK
    ensures Fits(off, []) && Lay(off, []) == [] && OffsetAfter(off, []) == off
  {
  }

  lemma ImageReads(file: Bytes, fs: seq<Frag>, z: nat)
    requires Image(file, fs, z)
    ensures ParseFile(file) == Events(fs)
  {
    hide Lay, Fits, ParseBlock;
    var e := OffsetAfter(0, fs);
    ParseStart(file);
    ParseLay(0, fs, Zeros(z));
    ZerosParse(e, z);
  }

  lemma ZerosParse(e: nat, z: nat)
    requires e <= BLOCK && z <= |Pad(e)|
    ensures ParseFrom(e, Zeros(z)) == []
  {
    hide ParseBlock;
    if e + z < BLOCK {
      EmptyBlock(Zeros(z), true);
    } else {
      assert Zeros(z)[..BLOCK - e] == Zeros(z) && Zeros(z)[BLOCK - e..] == [];
      EmptyBlock(Zeros(z), false);
      EmptyBlock([], true);
    }
  }

  ghost predicate PiecesOk(ps: seq<Piece>) { ps == [] || (PieceOk(ps[0]) && PiecesOk(ps[1..])) }

  function Pieces(ps: seq<Piece>): seq<Frag>
    requires PiecesOk(ps)
  {
    if ps == [] then [] else PieceFrags(ps[0]) + Pieces(ps[1..])
  }

  function PiecesCompleted(ps: seq<Piece>): seq<Bytes>
    requires PiecesOk(ps)
  {
    if ps == [] then []
    else Completed(ps[0].off, ps[0].recs, ps[0].frags) + PiecesCompleted(ps[1..])
  }

  lemma {:induction false} PiecesSnoc(ps: seq<Piece>, p: Piece)
    requires PiecesOk(ps) && PieceOk(p)
    ensures PiecesOk(ps + [p])
    ensures Pieces(ps + [p]) == Pieces(ps) + PieceFrags(p)
    ensures PiecesCompleted(ps + [p]) == PiecesCompleted(ps) + Completed(p.off, p.recs, p.frags)
    decreases |ps|
  {
    hide PieceFrags, Completed, SplitAll;
    var all := ps + [p];
    if ps == [] {
      assert all[0] == p && all[1..] == [];
    } else {
      assert all[0] == ps[0] && all[1..] == ps[1..] + [p];
      PiecesSnoc(ps[1..], p);
    }
  }

  /** A session's fragments deliver its completed records, whatever was left open
      before; an unfinished record is never joined to a later one. */
  lemma {:induction false} AssemblePiece(
      off: nat, recs: seq<Bytes>, k: nat, inFrag: bool, scratch: Bytes, more: seq<Event>)
    returns (inFrag': bool, scratch': Bytes)
    requires off <= BLOCK && k <= |SplitAll(off, recs)|
    ensures Assemble(Events(SplitAll(off, recs)[..k]) + more, inFrag, scratch).records
            == Completed(off, recs, k) + Assemble(more, inFrag', scratch').records
    decreases |recs|
  {
    hide Assemble, Split, Fits, OffsetAfter;
    if k == 0 || recs == [] {
      inFrag', scratch' := inFrag, scratch;
      assert Events(SplitAll(off, recs)[..k]) + more == more;
    } else {
      var a := Split(off, recs[0], true);
      var b := SplitAll(OffsetAfter(off, a), recs[1..]);
      if |a| <= k {
        assert (a + b)[..k] == a + b[..k - |a|];
        EventsAppend(a, b[..k - |a|]);
        var rest := Events(b[..k - |a|]) + more;
        assert Events((a + b)[..k]) + more == Events(a) + rest;
        AssembleRecord(off, recs[0], inFrag, scratch, rest);
        inFrag', scratch' := AssemblePiece(OffsetAfter(off, a), recs[1..], k - |a|, false, [], more);
      } else {
        assert (a + b)[..k] == a[..k];
        inFrag' := true;
        scratch' := PartialRecord(off, recs[0], k, inFrag, scratch, more);
      }
    }
  }

  lemma {:induction false} AssemblePieces(ps: seq<Piece>, inFrag: bool, scratch: Bytes)
    requires PiecesOk(ps)
    ensures Assemble(Events(Pieces(ps)), inFrag, scratch).records == PiecesCompleted(ps)
    decreases |ps|
  {
    hide Assemble, SplitAll, Completed;
    if ps == [] {
      AssembleNothing(inFrag, scratch);
    } else {
      var p := ps[0];
      EventsAppend(PieceFrags(p), Pieces(ps[1..]));
      var inFrag', scratch' := AssemblePiece(p.off, p.recs, p.frags, inFrag, scratch, Events(Pieces(ps[1..])));
      AssemblePieces(ps[1..], inFrag', scratch');
    }
  }

  lemma {:induction false} SessionsImage(ss: seq<Session>) returns (ps: seq<Piece>, z: nat)
    requires AllClean(ss)
    ensures PiecesOk(ps)
    ensures Image(FileAfter(ss), Pieces(ps), z)
    ensures PiecesCompleted(ps) == AllCompleted(ss)
    decreases |ss|
  {
    hide Image, CleanCut, Kept, Completed, SplitAll;
    if ss == [] {
      ps, z := [], 0;
      EmptyImage();
    } else {
      var s := ss[|ss| - 1];
      var ps0, z0 := SessionsImage(ss[..|ss| - 1]);
      var f := FileAfter(ss[..|ss| - 1]);
      ResumeImage(f, Pieces(ps0), z0, s);
      CleanPiece(|f| % BLOCK, s);
      var p := Piece(|f| % BLOCK, s.recs, s.frags);
      ps := ps0 + [p];
      PiecesSnoc(ps0, p);
      z :| Image(FileAfter(ss), Pieces(ps0) + PieceFrags(p), z);
    }
  }

  lemma EmptyImage()
    ensures Image([], [], 0)
  {
  }

  lemma CleanPiece(off: nat, s: Session)
    requires off <= BLOCK && CleanCut(off, s)
    ensures PieceOk(Piece(off, s.recs, s.frags))
  {
  }

  /** Resuming: a log written by any number of sessions, each cut cleanly, reads
      back as exactly the completed records of all sessions. */
  lemma Resume(ss: seq<Session>)
    requires AllClean(ss)
    ensures ReadAll(FileAfter(ss)).records == AllCompleted(ss)
  {
    hide AllClean, FileAfter, AllCompleted, Assemble, ParseFile, Image, PieceOk;
    var ps, z := SessionsImage(ss);
    ImageReads(FileAfter(ss), Pieces(ps), z);
    AssemblePieces(ps, false, []);
  }

  // -------------------------------------------------------- resynchronising

  /** The payload with v, at most four consecutive bytes of it, replaced by w. */
  datatype Damage = Damage(before: Bytes, v: Bytes, w: Bytes, after: Bytes)

  ghost predicate Damages(d: Damage, payload: Bytes) {
    payload == d.before + d.v + d.after && |d.v| == |d.w| <= 4 && d.v != d.w
  }

  function DamagedPhys(f: Frag, d: Damage): Bytes
    requires FragOk(f)
  {
    Header(f) + (d.before + d.w + d.after)
  }

  lemma DamagedHeader(f: Frag, d: Damage, rest: Bytes)
    requires FragOk(f) && Damages(d, f.payload)
    ensures var b := DamagedPhys(f, d) + rest;
            && PayloadLength(b) == |f.payload| && OfByte(b[6]) == f.kind
            && Decode32(b) == Checksum(ToByte(f.kind), f.payload)
            && b[6..HEADER + |f.payload|] == [ToByte(f.kind)] + d.before + d.w + d.after
  {
    hide Checksum, ToByte, OfByte, Header;
    HeaderFields(f, []);
    var b, c := DamagedPhys(f, d) + rest, Phys(f) + [];
    assert forall i | 0 <= i < HEADER :: b[i] == Header(f)[i] == c[i];
  }

  /** A changed payload always fails the checksum. */
  lemma DamageDetected(f: Frag, d: Damage, rest: Bytes)
    requires FragOk(f) && Damages(d, f.payload)
    ensures var b := DamagedPhys(f, d) + rest;
            OfByte(b[6]) == f.kind && HEADER + PayloadLength(b) <= |b| && !ChecksumOk(b)
  {
    hide Crc.Value, Crc.Mask, Crc.Unmask, Decode32, ToByte, OfByte, DamagedPhys, PayloadLength;
    var k := ToByte(f.kind);
    DamagedHeader(f, d, rest);
    assert |DamagedPhys(f, d)| == HEADER + |f.payload| by { DamagedLength(f, d); }
    MaskedBack(Crc.Value([k] + f.payload));
    Crc.DetectsBurst([k] + d.before, d.v, d.w, d.after);
    assert [k] + f.payload == [k] + d.before + d.v + d.after;
  }

  lemma DamagedLength(f: Frag, d: Damage)
    requires FragOk(f) && Damages(d, f.payload)
    ensures |DamagedPhys(f, d)| == |Phys(f)|
  {
  }

  lemma DamagedBlock(f: Frag, d: Damage, rest: Bytes, last: bool)
    requires FragOk(f) && Damages(d, f.payload)
    ensures var b := DamagedPhys(f, d) + rest;
            ParseBlock(b, last) == [Dropped(|b|)]
  {
    hide ChecksumOk, PayloadLength, DamagedPhys, OfByte;
    DamageDetected(f, d, rest);
  }

  /** How many of the next fragments lie in the block that offset off is in. */
  function InBlock(off: nat, fs: seq<Frag>): (k: nat)
    requires Fits(off, fs)
    ensures k <= |fs|
    decreases |fs|
  {
    if fs == [] || BLOCK - off < HEADER then 0 else 1 + InBlock(EndOf(off, fs[0]), fs[1..])
  }

  /** Leaving out the rest of a block leaves out exactly those fragments. */
  lemma {:induction false} SkipBlock(off: nat, fs: seq<Frag>)
    requires Fits(off, fs)
    ensures Fits(0, fs[InBlock(off, fs)..])
    ensures var rest, later := Lay(off, fs), fs[InBlock(off, fs)..];
            if off + |rest| < BLOCK then later == [] else rest[BLOCK - off..] == Lay(0, later)
    decreases |fs|
  {
    hide Phys, FragOk, Pad, Start, Lay, Fits;
    if fs == [] {
      LayNone(off, fs);
      NoLay(0);
    } else if BLOCK - off < HEADER {
      assert fs[0..] == fs;
      LayFresh(off, fs);
    } else {
      LayHead(off, fs);
      NoPad(off);
      var o := EndOf(off, fs[0]);
      SkipBlock(o, fs[1..]);
      assert fs[1..][InBlock(o, fs[1..])..] == fs[InBlock(off, fs)..];
      var here, rest := Phys(fs[0]), Lay(o, fs[1..]);
      assert Lay(off, fs) == here + rest;
      if o + |rest| >= BLOCK {
        assert (here + rest)[BLOCK - off..] == rest[BLOCK - o..];
      }
    }
  }

  lemma NoPad(off: nat)
    requires off + HEADER <= BLOCK
    ensures Pad(off) == [] && Start(off) == off
  {
  }

  lemma LayFresh(off: nat, fs: seq<Frag>)
    requires Fits(off, fs) && fs != [] && BLOCK - off < HEADER
    ensures Fits(0, fs) && off + |Lay(off, fs)| >= BLOCK && Lay(off, fs)[BLOCK - off..] == Lay(0, fs)
  {
    hide Phys, FragOk, Zeros, Pad, Start, Lay, Fits;
    LayHead(off, fs);
    var o := EndOf(off, fs[0]);
    FreshBlock(off);
    assert o == EndOf(0, fs[0]);
    LayCons(0, fs);
    var more := Phys(fs[0]) + Lay(o, fs[1..]);
    assert Lay(off, fs) == Pad(off) + more;
    assert Lay(0, fs) == Pad(0) + more == more;
  }

  lemma FreshBlock(off: nat)
    requires off <= BLOCK && BLOCK - off < HEADER
    ensures Start(off) == Start(0) && Pad(0) == [] && |Pad(off)| == BLOCK - off
  {
  }

  /** The reader drops the rest of the damaged block and goes on with the next. */
  lemma ParseDamaged(off: nat, f: Frag, d: Damage, o: nat, fs: seq<Frag>) returns (n: nat)
    requires off <= o <= BLOCK && Fits(o, fs)
    requires FragOk(f) && o == off + HEADER + |f.payload| && Damages(d, f.payload)
    ensures ParseFrom(off, DamagedPhys(f, d) + Lay(o, fs)) == [Dropped(n)] + Events(fs[InBlock(o, fs)..])
  {
    hide ParseBlock, ParseFile, DamagedPhys, Phys, Fits, Lay, InBlock, Damages;
    var rest := Lay(o, fs);
    var all := DamagedPhys(f, d) + rest;
    var later := fs[InBlock(o, fs)..];
    SkipBlock(o, fs);
    DamagedLength(f, d);
    if off + |all| < BLOCK {
      n := |all|;
      DamagedBlock(f, d, rest, true);
      assert [Dropped(n)] + Events(later) == [Dropped(n)];
    } else {
      n := BLOCK - off;
      var head := rest[..BLOCK - o];
      DamagedBlock(f, d, head, false);
      assert all[..BLOCK - off] == DamagedPhys(f, d) + head;
      assert all[BLOCK - off..] == rest[BLOCK - o..] == Lay(0, later);
      LayReads(later);
    }
  }

  lemma LayReads(fs: seq<Frag>)
    requires Fits(0, fs)
    ensures ParseFile(Lay(0, fs)) == Events(fs)
  {
    hide ParseFrom, ParseFile, Lay, Fits;
    ParseStart(Lay(0, fs));
    ParseLay(0, fs, []);
    assert Lay(0, fs) + [] == Lay(0, fs);
    ParseNothing(OffsetAfter(0, fs));
  }

  /** The log of recs with damage d done to the payload of its fragment j. */
  ghost predicate DamagedLog(file: Bytes, fs: seq<Frag>, j: nat, d: Damage) {
    && Fits(0, fs) && j < |fs| && Fits(0, fs[..j])
    && FragOk(fs[j]) && Damages(d, fs[j].payload)
    && Fits(EndOf(OffsetAfter(0, fs[..j]), fs[j]), fs[j + 1..])
    && file == Lay(0, fs[..j]) + Pad(OffsetAfter(0, fs[..j])) + DamagedPhys(fs[j], d)
               + Lay(EndOf(OffsetAfter(0, fs[..j]), fs[j]), fs[j + 1..])
  }

  /** The first fragment past the block that fragment j lies in. */
  function NextBlock(fs: seq<Frag>, j: nat): (e: nat)
    requires j < |fs| && Fits(0, fs[..j]) && Fits(EndOf(OffsetAfter(0, fs[..j]), fs[j]), fs[j + 1..])
    ensures j < e <= |fs|
  {
    j + 1 + InBlock(EndOf(OffsetAfter(0, fs[..j]), fs[j]), fs[j + 1..])
  }

  lemma DamagedEvents(file: Bytes, fs: seq<Frag>, j: nat, d: Damage) returns (n: nat)
    requires DamagedLog(file, fs, j, d)
    ensures ParseFile(file) == Events(fs[..j]) + ([Dropped(n)] + Events(fs[NextBlock(fs, j)..]))
  {
    hide ParseFrom, ParseFile, Lay, Fits, Pad, Phys, DamagedPhys, Damages, InBlock, OffsetAfter, Start;
    var off := OffsetAfter(0, fs[..j]);
    var o := EndOf(off, fs[j]);
    var more := DamagedPhys(fs[j], d) + Lay(o, fs[j + 1..]);
    assert file == Lay(0, fs[..j]) + (Pad(off) + more);
    ParseStart(file);
    ParseLay(0, fs[..j], Pad(off) + more);
    ParsePad(off, more);
    FragInside(fs, j);
    n := ParseDamaged(Start(off), fs[j], d, o, fs[j + 1..]);
    assert fs[j + 1..][InBlock(o, fs[j + 1..])..] == fs[NextBlock(fs, j)..];
  }

  lemma FragInside(fs: seq<Frag>, j: nat)
    requires j < |fs| && Fits(0, fs[..j]) && Fits(EndOf(OffsetAfter(0, fs[..j]), fs[j]), fs[j + 1..])
    ensures EndOf(OffsetAfter(0, fs[..j]), fs[j]) <= BLOCK
  {
  }

  /** The records none of whose fragments are numbered lo up to hi. */
  function Untouched(off: nat, recs: seq<Bytes>, lo: int, hi: int): seq<Bytes>
    requires off <= BLOCK
    decreases |recs|
  {
    if recs == [] then []
    else
      var f := Split(off, recs[0], true);
      (if |f| <= lo || hi <= 0 then [recs[0]] else [])
      + Untouched(OffsetAfter(off, f), recs[1..], lo - |f|, hi - |f|)
  }

  /** A fragment whose start is gone is reported, never delivered. */
  lemma Stray(f: Frag, es: seq<Event>)
    requires f.kind == MIDDLE || f.kind == LAST
    ensures Assemble([Got(f.kind, f.payload)] + es, false, []).records == Assemble(es, false, []).records
  {
    assert ([Got(f.kind, f.payload)] + es)[1..] == es;
  }

  lemma EventsCons(f: Frag, fs: seq<Frag>, more: seq<Event>)
    ensures Events([f] + fs) + more == [Got(f.kind, f.payload)] + (Events(fs) + more)
  {
  }

  function Room(off: nat): nat
    requires off <= BLOCK
  {
    if Start(off) + HEADER == BLOCK then 1 else 0
  }

  /** The next fragment of a record already begun, and what follows it. */
  lemma AfterNext(off: nat, data: Bytes) returns (f: Frag, last: bool, o: nat, rest: Bytes)
    requires off <= BLOCK
    ensures (f.kind == MIDDLE || f.kind == LAST) && o <= BLOCK
    ensures Split(off, data, false) == [f] + (if last then [] else Split(o, rest, false))
    ensures !last ==> |rest| < |data| || (|rest| == |data| && Room(o) < Room(off))
  {
    hide Fits;
    var n := Take(off, data);
    f := Frag(KindOf(false, n == |data|), data[..n]);
    last, o, rest := n == |data|, Start(off) + HEADER + n, data[n..];
  }

  lemma {:induction false} Headless(off: nat, data: Bytes, k: nat, more: seq<Event>)
    requires off <= BLOCK && k <= |Split(off, data, false)|
    ensures Assemble(Events(Split(off, data, false)[k..]) + more, false, []).records
            == Assemble(more, false, []).records
    decreases |data|, Room(off)
  {
    hide Fits, Split, Events, Assemble, Room;
    var f, last, o, rest := AfterNext(off, data);
    var fs := Split(off, data, false);
    var tail := if last then [] else Split(o, rest, false);
    assert fs[1..] == tail;
    if !last {
      Headless(o, rest, if k == 0 then 0 else k - 1, more);
    }
    NoEvents(more);
    if k == 0 {
      assert fs[0..] == fs && tail[0..] == tail;
      EventsCons(f, tail, more);
      Stray(f, Events(tail) + more);
    } else {
      DropFirst(fs, k);
    }
  }

  lemma {:induction false} HeadlessRecord(off: nat, data: Bytes, k: nat, more: seq<Event>)
    requires off <= BLOCK && 0 < k <= |Split(off, data, true)|
    ensures Assemble(Events(Split(off, data, true)[k..]) + more, false, []).records
            == Assemble(more, false, []).records
  {
    hide Fits, Assemble, Split, Events;
    var last, o, rest := AfterFirst(off, data);
    var fs := Split(off, data, true);
    DropFirst(fs, k);
    if last {
      NoEvents(more);
    } else {
      Headless(o, rest, k - 1, more);
    }
  }

  lemma DropFirst(fs: seq<Frag>, k: nat)
    requires 0 < k <= |fs|
    ensures fs[k..] == fs[1..][k - 1..]
  {
  }

  lemma NoEvents(more: seq<Event>)
    ensures Events([]) + more == more
  {
  }

  /** What follows the first fragment of a record. */
  lemma AfterFirst(off: nat, data: Bytes) returns (last: bool, o: nat, rest: Bytes)
    requires off <= BLOCK
    ensures o <= BLOCK
    ensures Split(off, data, true)[1..] == if last then [] else Split(o, rest, false)
  {
    hide Fits;
    var n := Take(off, data);
    last, o, rest := n == |data|, Start(off) + HEADER + n, data[n..];
  }

  /** From fragment hi on, exactly the records that begin there are delivered. */
  lemma {:induction false} AssembleTail(off: nat, recs: seq<Bytes>, lo: int, hi: nat)
    requires off <= BLOCK && hi <= |SplitAll(off, recs)|
    requires recs != [] ==> lo < |Split(off, recs[0], true)|
    ensures Assemble(Events(SplitAll(off, recs)[hi..]), false, []).records == Untouched(off, recs, lo, hi)
    decreases |recs|
  {
    hide Assemble, Split, Fits, OffsetAfter;
    if recs == [] {
      AssembleNothing(false, []);
    } else {
      var a := Split(off, recs[0], true);
      var o := OffsetAfter(off, a);
      var b := SplitAll(o, recs[1..]);
      var k := if |a| <= hi then hi - |a| else 0;
      AssembleTail(o, recs[1..], lo - |a|, k);
      UntouchedFrom(o, recs[1..], lo - |a|, k, hi - |a|);
      if |a| <= hi {
        assert (a + b)[hi..] == b[k..];
      } else {
        assert (a + b)[hi..] == a[hi..] + b && b[0..] == b;
        EventsAppend(a[hi..], b);
        if hi == 0 {
          assert a[0..] == a;
          AssembleRecord(off, recs[0], false, [], Events(b));
        } else {
          HeadlessRecord(off, recs[0], hi, Events(b));
        }
      }
    }
  }

  /** A range that ends before the first fragment touches nothing more. */
  lemma {:induction false} UntouchedFrom(off: nat, recs: seq<Bytes>, lo: int, k: nat, hi: int)
    requires off <= BLOCK && (k == hi || (k == 0 && hi <= 0))
    ensures Untouched(off, recs, lo, k) == Untouched(off, recs, lo, hi)
    decreases |recs|
  {
    hide Split, OffsetAfter;
    if k != hi {
      AllUntouched(off, recs, lo, 0);
      AllUntouched(off, recs, lo, hi);
    }
  }

  lemma {:induction false} AllUntouched(off: nat, recs: seq<Bytes>, lo: int, hi: int)
    requires off <= BLOCK && hi <= 0
    ensures Untouched(off, recs, lo, hi) == recs
    decreases |recs|
  {
    hide Split, OffsetAfter;
    if recs != [] {
      var f := Split(off, recs[0], true);
      AllUntouched(OffsetAfter(off, f), recs[1..], lo - |f|, hi - |f|);
    }
  }

  lemma {:induction false} AssembleGap(off: nat, recs: seq<Bytes>, lo: nat, hi: nat, n: nat)
    requires off <= BLOCK && lo < hi <= |SplitAll(off, recs)|
    ensures var fs := SplitAll(off, recs);
            Assemble(Events(fs[..lo]) + ([Dropped(n)] + Events(fs[hi..])), false, []).records
            == Untouched(off, recs, lo, hi)
    decreases |recs|
  {
    hide Assemble, Split, Fits, OffsetAfter;
    if recs != [] {
      var fs := SplitAll(off, recs);
      var gap := [Dropped(n)] + Events(fs[hi..]);
      var a := Split(off, recs[0], true);
      var o := OffsetAfter(off, a);
      var b := SplitAll(o, recs[1..]);
      if |a| <= lo {
        assert fs[..lo] == a + b[..lo - |a|] && fs[hi..] == b[hi - |a|..];
        EventsAppend(a, b[..lo - |a|]);
        var more := Events(b[..lo - |a|]) + gap;
        assert Events(fs[..lo]) + gap == Events(a) + more;
        AssembleRecord(off, recs[0], false, [], more);
        AssembleGap(o, recs[1..], lo - |a|, hi - |a|, n);
      } else {
        assert fs[..lo] == a[..lo];
        if lo == 0 {
          assert Events(fs[..lo]) + gap == gap;
          AfterDrop(n, Events(fs[hi..]), false, []);
        } else {
          var got := PartialRecord(off, recs[0], lo, false, [], gap);
          AfterDrop(n, Events(fs[hi..]), true, got);
        }
        AssembleTail(off, recs, lo, hi);
      }
    }
  }

  lemma AfterDrop(n: nat, es: seq<Event>, inFrag: bool, scratch: Bytes)
    ensures Assemble([Dropped(n)] + es, inFrag, scratch).records == Assemble(es, false, []).records
  {
    assert ([Dropped(n)] + es)[1..] == es;
  }

  lemma DamagedReads(recs: seq<Bytes>, file: Bytes, j: nat, d: Damage)
    requires DamagedLog(file, SplitAll(0, recs), j, d)
    ensures ReadAll(file).records == Untouched(0, recs, j, NextBlock(SplitAll(0, recs), j))
  {
    hide ParseFile, Assemble, SplitAll, Untouched, NextBlock, Damages, DamagedPhys, Phys, Lay, Pad, Fits, OffsetAfter;
    var fs := SplitAll(0, recs);
    var n := DamagedEvents(file, fs, j, d);
    AssembleGap(0, recs, j, NextBlock(fs, j), n);
  }

  /** Where the payload of fragment j begins in the file. */
  function PayloadAt(fs: seq<Frag>, j: nat): nat
    requires j < |fs| && Fits(0, fs[..j])
  {
    |Lay(0, fs[..j])| + |Pad(OffsetAfter(0, fs[..j]))| + HEADER
  }

  /** s with w written over the bytes from at. */
  function Overwrite(s: Bytes, at: nat, w: Bytes): Bytes
    requires at + |w| <= |s|
  {
    s[..at] + w + s[at + |w|..]
  }

  /** The layout around fragment j. */
  lemma LayAround(fs: seq<Frag>, j: nat)
    requires Fits(0, fs) && j < |fs|
    ensures Fits(0, fs[..j]) && FragOk(fs[j]) && Fits(EndOf(OffsetAfter(0, fs[..j]), fs[j]), fs[j + 1..])
    ensures Lay(0, fs) == Lay(0, fs[..j]) + Pad(OffsetAfter(0, fs[..j])) + Phys(fs[j])
                          + Lay(EndOf(OffsetAfter(0, fs[..j]), fs[j]), fs[j + 1..])
  {
    hide Phys, Pad, FragOk, Lay, Fits, OffsetAfter, EndOf;
    FitsSplit(0, fs, j);
    var off := OffsetAfter(0, fs[..j]);
    assert fs[j..][0] == fs[j] && fs[j..][1..] == fs[j + 1..];
    LayHead(off, fs[j..]);
    var tail := Lay(EndOf(off, fs[j]), fs[j + 1..]);
    assert Lay(0, fs[..j]) + (Pad(off) + Phys(fs[j]) + tail) == Lay(0, fs[..j]) + Pad(off) + Phys(fs[j]) + tail;
  }

  lemma OverwriteInside(a: Bytes, b: Bytes, c: Bytes, at: nat, w: Bytes)
    requires at + |w| <= |b|
    ensures Overwrite(a + b + c, |a| + at, w) == a + Overwrite(b, at, w) + c
  {
  }

  lemma DamageMade(fs: seq<Frag>, j: nat, at: nat, w: Bytes)
    requires Fits(0, fs) && j < |fs| && |w| <= 4 && at + |w| <= |fs[j].payload| && w != fs[j].payload[at..at + |w|]
    ensures Fits(0, fs[..j]) && PayloadAt(fs, j) + at + |w| <= |Lay(0, fs)|
    ensures var p := fs[j].payload;
            var d := Damage(p[..at], p[at..at + |w|], w, p[at + |w|..]);
            DamagedLog(Overwrite(Lay(0, fs), PayloadAt(fs, j) + at, w), fs, j, d)
  {
    hide Lay, Fits, Pad, Header, OffsetAfter, EndOf, FragOk;
    LayAround(fs, j);
    var p := fs[j].payload;
    var off := OffsetAfter(0, fs[..j]);
    var a := Lay(0, fs[..j]) + Pad(off) + Header(fs[j]);
    var c := Lay(EndOf(off, fs[j]), fs[j + 1..]);
    assert Lay(0, fs) == a + p + c;
    OverwriteInside(a, p, c, at, w);
    var d := Damage(p[..at], p[at..at + |w|], w, p[at + |w|..]);
    assert a + Overwrite(p, at, w) + c == Lay(0, fs[..j]) + Pad(off) + DamagedPhys(fs[j], d) + c;
    assert p == d.before + d.v + d.after;
  }

  /** Resynchronisation: after up to four consecutive payload bytes of fragment j
      have changed, the reader delivers exactly the records that have no fragment
      from j to the end of its block. */
  lemma Resync(recs: seq<Bytes>, j: nat, at: nat, w: Bytes)
    requires j < |SplitAll(0, recs)| && |w| <= 4
    requires at + |w| <= |SplitAll(0, recs)[j].payload| && w != SplitAll(0, recs)[j].payload[at..at + |w|]
    ensures var fs := SplitAll(0, recs);
            && Fits(0, fs[..j]) && PayloadAt(fs, j) + at + |w| <= |LogBytes(0, recs)|
            && Fits(EndOf(OffsetAfter(0, fs[..j]), fs[j]), fs[j + 1..])
            && ReadAll(Overwrite(LogBytes(0, recs), PayloadAt(fs, j) + at, w)).records
               == Untouched(0, recs, j, NextBlock(fs, j))
  {
    hide Lay, SplitAll, ParseFile, Assemble, Untouched, PayloadAt, Overwrite, OffsetAfter, Pad, Phys, Damages;
    hide DamagedPhys, Fits;
    var fs := SplitAll(0, recs);
    DamageMade(fs, j, at, w);
    var p := fs[j].payload;
    DamagedReads(recs, Overwrite(Lay(0, fs), PayloadAt(fs, j) + at, w), j,
                 Damage(p[..at], p[at..at + |w|], w, p[at + |w|..]));
  }

  lemma DropReported(n: nat, es: seq<Event>, inFrag: bool, scratch: Bytes)
    ensures var r := Assemble([Dropped(n)] + es, inFrag, scratch).reports;
            r != [] && r[0] == n
  {
  }

  lemma {:induction false} GapReported(off: nat, recs: seq<Bytes>, lo: nat, n: nat, es: seq<Event>)
    requires off <= BLOCK && lo < |SplitAll(off, recs)|
    ensures var r := Assemble(Events(SplitAll(off, recs)[..lo]) + ([Dropped(n)] + es), false, []).reports;
            r != [] && r[0] == n
    decreases |recs|
  {
    hide Assemble, Split, Fits, OffsetAfter;
    if recs != [] {
      var fs, gap := SplitAll(off, recs), [Dropped(n)] + es;
      var a := Split(off, recs[0], true);
      var o := OffsetAfter(off, a);
      var b := SplitAll(o, recs[1..]);
      if |a| <= lo {
        assert fs[..lo] == a + b[..lo - |a|];
        EventsAppend(a, b[..lo - |a|]);
        var more := Events(b[..lo - |a|]) + gap;
        assert Events(fs[..lo]) + gap == Events(a) + more;
        AssembleRecord(off, recs[0], false, [], more);
        GapReported(o, recs[1..], lo - |a|, n, es);
      } else {
        assert fs[..lo] == a[..lo];
        if lo == 0 {
          assert Events(fs[..lo]) + gap == gap;
          DropReported(n, es, false, []);
        } else {
          var got := PartialRecord(off, recs[0], lo, false, [], gap);
          DropReported(n, es, true, got);
        }
      }
    }
  }

  /** Such damage never goes unnoticed: it is the first thing the reader reports. */
  lemma DamageReported(recs: seq<Bytes>, j: nat, at: nat, w: Bytes)
    requires j < |SplitAll(0, recs)| && |w| <= 4
    requires at + |w| <= |SplitAll(0, recs)[j].payload| && w != SplitAll(0, recs)[j].payload[at..at + |w|]
    ensures var fs := SplitAll(0, recs);
            && Fits(0, fs[..j]) && PayloadAt(fs, j) + at + |w| <= |LogBytes(0, recs)|
            && ReadAll(Overwrite(LogBytes(0, recs), PayloadAt(fs, j) + at, w)).reports != []
  {
    hide Lay, SplitAll, ParseFile, Assemble, PayloadAt, Overwrite, OffsetAfter, Pad, Phys, Damages, DamagedPhys, Fits;
    hide NextBlock;
    var fs := SplitAll(0, recs);
    DamageMade(fs, j, at, w);
    var p := fs[j].payload;
    var file := Overwrite(Lay(0, fs), PayloadAt(fs, j) + at, w);
    var n := DamagedEvents(file, fs, j, Damage(p[..at], p[at..at + |w|], w, p[at + |w|..]));
    GapReported(0, recs, j, n, Events(fs[NextBlock(fs, j)..]));
  }

  // ------------------------------------------------------------ zero filling

  function Skips(n: nat): seq<Event> { seq(n, _ => Skip) }

  /** Zeros read as padding, seven bytes at a time. */
  lemma {:induction false} ZeroBlock(n: nat, last: bool) returns (k: nat)
    ensures ParseBlock(Zeros(n), last) == Skips(k)
    decreases n
  {
    hide ChecksumOk;
    if n < HEADER {
      k := 0;
    } else {
      var m := ZeroBlock(n - HEADER, last);
      assert Zeros(n)[HEADER..] == Zeros(n - HEADER);
      ZeroHeader(n);
      k := m + 1;
      assert [Skip] + Skips(m) == Skips(k);
    }
  }

  lemma ZeroHeader(n: nat)
    requires n >= HEADER
    ensures PayloadLength(Zeros(n)) == 0 && OfByte(Zeros(n)[6]) == ZERO
  {
    ZeroByte();
    hide OfByte;
  }

  lemma ZeroByte()
    ensures OfByte(0) == 0
  {
  }

  lemma {:induction false} ZeroFile(n: nat) returns (k: nat)
    ensures ParseFile(Zeros(n)) == Skips(k)
    decreases n
  {
    hide ParseBlock;
    if n < BLOCK {
      k := ZeroBlock(n, true);
    } else {
      var a := ZeroBlock(BLOCK, false);
      var b := ZeroFile(n - BLOCK);
      assert Zeros(n)[..BLOCK] == Zeros(BLOCK) && Zeros(n)[BLOCK..] == Zeros(n - BLOCK);
      k := a + b;
      assert Skips(a) + Skips(b) == Skips(k);
    }
  }

  lemma ZeroRest(off: nat, n: nat) returns (k: nat)
    requires off <= BLOCK
    ensures ParseFrom(off, Zeros(n)) == Skips(k)
  {
    hide ParseBlock, ParseFile;
    if off + n < BLOCK {
      k := ZeroBlock(n, true);
    } else {
      var a := ZeroBlock(BLOCK - off, false);
      var b := ZeroFile(n - (BLOCK - off));
      assert Zeros(n)[..BLOCK - off] == Zeros(BLOCK - off) && Zeros(n)[BLOCK - off..] == Zeros(n - (BLOCK - off));
      k := a + b;
      assert Skips(a) + Skips(b) == Skips(k);
    }
  }

  lemma {:induction false} SkipsSilent(k: nat)
    ensures Assemble(Skips(k), false, []) == Reading([], [])
  {
    if k > 0 {
      SkipsSilent(k - 1);
      assert Skips(k)[1..] == Skips(k - 1);
    }
  }

  /** Zero-filled space behind a log, however much of it, is passed over without a
      report. */
  lemma ZeroFilled(recs: seq<Bytes>, n: nat)
    ensures ReadAll(LogBytes(0, recs) + Zeros(n)) == Reading(recs, [])
  {
    hide ParseFrom, ParseFile, Assemble, Fits, Lay, SplitAll, Zeros;
    var fs := SplitAll(0, recs);
    ParseStart(Lay(0, fs) + Zeros(n));
    ParseLay(0, fs, Zeros(n));
    var k := ZeroRest(OffsetAfter(0, fs), n);
    AssembleAll(0, recs, Skips(k));
    SkipsSilent(k);
  }
}
