/** Logical records: how the writer fragments them, and that reading a written
    log - whole, cut anywhere, resumed or damaged - returns the right ones. */
module WalRecords {
  import opened Coding
  import opened WalFormat

  function KindOf(begin: bool, end: bool): nat {
    if begin && end then FULL else if begin then FIRST else if end then LAST else MIDDLE
  }

  /** Payload bytes of the next fragment. */
  function Take(off: nat, data: Bytes): (n: nat)
    requires off <= BLOCK
    ensures n <= |data| && Start(off) + HEADER + n <= BLOCK
  {
    var avail := BLOCK - Start(off) - HEADER;
    if |data| < avail then |data| else avail
  }

  /** The fragments AddRecord emits from block offset off. A block with exactly a
      header left takes a zero-length fragment, after which there is room. */
  function Split(off: nat, data: Bytes, begin: bool): (fs: seq<Frag>)
    requires off <= BLOCK
    ensures fs != [] && Fits(off, fs)
    decreases |data|, if Start(off) + HEADER == BLOCK then 1 else 0
  {
    var n := Take(off, data);
    var f := Frag(KindOf(begin, n == |data|), data[..n]);
    if n == |data| then [f] else [f] + Split(EndOf(off, f), data[n..], false)
  }

  function SplitAll(off: nat, recs: seq<Bytes>): (fs: seq<Frag>)
    requires off <= BLOCK
    ensures Fits(off, fs)
    decreases |recs|
  {
    if recs == [] then []
    else
      var a := Split(off, recs[0], true);
      var b := SplitAll(OffsetAfter(off, a), recs[1..]);
      FitsAppend(off, a, b);
      a + b
  }

  /** The bytes a writer at block offset off appends for recs. */
  function LogBytes(off: nat, recs: seq<Bytes>): Bytes
    requires off <= BLOCK
  {
    Lay(off, SplitAll(off, recs))
  }

  // ---------------------------------------------------- layouts in pieces

  lemma {:induction false} FitsAppend(off: nat, a: seq<Frag>, b: seq<Frag>)
    requires Fits(off, a) && Fits(OffsetAfter(off, a), b)
    ensures Fits(off, a + b)
    ensures OffsetAfter(off, a + b) == OffsetAfter(OffsetAfter(off, a), b)
    ensures Lay(off, a + b) == Lay(off, a) + Lay(OffsetAfter(off, a), b)
    decreases |a|
  {
    hide Phys, Pad, FragOk;
    if a == [] {
      assert a + b == b;
    } else {
      assert (a + b)[0] == a[0] && (a + b)[1..] == a[1..] + b;
      FitsAppend(EndOf(off, a[0]), a[1..], b);
    }
  }

  lemma {:induction false} FitsSplit(off: nat, fs: seq<Frag>, k: nat)
    requires Fits(off, fs) && k <= |fs|
    ensures Fits(off, fs[..k]) && Fits(OffsetAfter(off, fs[..k]), fs[k..])
    ensures Lay(off, fs) == Lay(off, fs[..k]) + Lay(OffsetAfter(off, fs[..k]), fs[k..])
    decreases |fs|
  {
    hide Phys, Pad, FragOk, EndOf, Lay, OffsetAfter, Fits;
    if k == 0 {
      assert fs[..0] == [] && fs[0..] == fs;
      LayNone(off, fs);
    } else {
      LayHead(off, fs);
      var o := EndOf(off, fs[0]);
      FitsSplit(o, fs[1..], k - 1);
      assert fs[..k][0] == fs[0] && fs[..k][1..] == fs[1..][..k - 1] && fs[k..] == fs[1..][k - 1..];
      LayCons(off, fs[..k]);
      var a, b := Lay(o, fs[1..][..k - 1]), Lay(OffsetAfter(off, fs[..k]), fs[k..]);
      assert Pad(off) + Phys(fs[0]) + (a + b) == (Pad(off) + Phys(fs[0]) + a) + b;
    }
  }

  lemma LayNone(off: nat, fs: seq<Frag>)
    requires Fits(off, fs)
    ensures off <= BLOCK && Fits(off, []) && Lay(off, []) == [] && OffsetAfter(off, []) == off
  {
  }

  lemma LayHead(off: nat, fs: seq<Frag>)
    requires Fits(off, fs) && fs != []
    ensures off <= BLOCK && FragOk(fs[0]) && EndOf(off, fs[0]) <= BLOCK && Fits(EndOf(off, fs[0]), fs[1..])
    ensures Lay(off, fs) == Pad(off) + Phys(fs[0]) + Lay(EndOf(off, fs[0]), fs[1..])
  {
    hide Phys, Pad, FragOk;
  }

  lemma LayCons(off: nat, fs: seq<Frag>)
    requires off <= BLOCK && fs != [] && FragOk(fs[0]) && EndOf(off, fs[0]) <= BLOCK && Fits(EndOf(off, fs[0]), fs[1..])
    ensures Fits(off, fs) && OffsetAfter(off, fs) == OffsetAfter(EndOf(off, fs[0]), fs[1..])
    ensures Lay(off, fs) == Pad(off) + Phys(fs[0]) + Lay(EndOf(off, fs[0]), fs[1..])
  {
    hide Phys, Pad, FragOk;
  }

  // ------------------------------------------------------------ reassembly

  lemma EventsAppend(a: seq<Frag>, b: seq<Frag>)
    ensures Events(a + b) == Events(a) + Events(b)
  {
  }

  /** The rest of a fragmented record completes it. */
  lemma {:induction false} AssembleRest(off: nat, data: Bytes, scratch: Bytes, more: seq<Event>)
    requires off <= BLOCK
    ensures Assemble(Events(Split(off, data, false)) + more, true, scratch)
            == Deliver(scratch + data, Assemble(more, false, []))
    decreases |data|, if Start(off) + HEADER == BLOCK then 1 else 0
  {
    hide Fits;
    var n := Take(off, data);
    var f := Frag(KindOf(false, n == |data|), data[..n]);
    var es := Events(Split(off, data, false)) + more;
    assert es[0] == Got(f.kind, f.payload);
    if n == |data| {
      assert es[1..] == more && data[..n] == data;
    } else {
      assert es[1..] == Events(Split(EndOf(off, f), data[n..], false)) + more;
      AssembleRest(EndOf(off, f), data[n..], scratch + f.payload, more);
      assert (scratch + data[..n]) + data[n..] == scratch + data;
    }
  }

  /** A complete record is delivered; whatever was abandoned before is reported. */
  lemma AssembleRecord(off: nat, data: Bytes, inFrag: bool, scratch: Bytes, more: seq<Event>)
    requires off <= BLOCK
    ensures Assemble(Events(Split(off, data, true)) + more, inFrag, scratch)
            == ReportIf(inFrag, |scratch|, Deliver(data, Assemble(more, false, [])))
  {
    hide Fits;
    var n := Take(off, data);
    var f := Frag(KindOf(true, n == |data|), data[..n]);
    var es := Events(Split(off, data, true)) + more;
    assert es[0] == Got(f.kind, f.payload);
    if n == |data| {
      assert es[1..] == more && data[..n] == data;
    } else {
      assert es[1..] == Events(Split(EndOf(off, f), data[n..], false)) + more;
      AssembleRest(EndOf(off, f), data[n..], f.payload, more);
      assert data[..n] + data[n..] == data;
    }
  }

  function Prepend(recs: seq<Bytes>, r: Reading): Reading { r.(records := recs + r.records) }

  lemma {:induction false} AssembleAll(off: nat, recs: seq<Bytes>, more: seq<Event>)
    requires off <= BLOCK
    ensures Assemble(Events(SplitAll(off, recs)) + more, false, []) == Prepend(recs, Assemble(more, false, []))
    decreases |recs|
  {
    hide Fits, Assemble, Split;
    if recs == [] {
      assert Events(SplitAll(off, recs)) + more == more;
    } else {
      var a := Split(off, recs[0], true);
      var b := SplitAll(OffsetAfter(off, a), recs[1..]);
      EventsAppend(a, b);
      assert Events(a + b) + more == Events(a) + (Events(b) + more);
      AssembleRecord(off, recs[0], false, [], Events(b) + more);
      AssembleAll(OffsetAfter(off, a), recs[1..], more);
      assert recs == [recs[0]] + recs[1..];
    }
  }

  lemma ParseNothing(off: nat)
    requires off <= BLOCK
    ensures ParseFrom(off, []) == []
  {
  }

  /** Reading back a written log returns exactly the records, with no report. */
  lemma RoundTrip(recs: seq<Bytes>)
    ensures ReadAll(LogBytes(0, recs)) == Reading(recs, [])
  {
    hide ParseFrom, ParseFile, Assemble, Fits, Lay;
    var fs := SplitAll(0, recs);
    var file := Lay(0, fs);
    ParseStart(file);
    assert file + [] == file;
    ParseLay(0, fs, []);
    ParseNothing(OffsetAfter(0, fs));
    AssembleAll(0, recs, []);
    AssembleNothing(false, []);
  }

  lemma AssembleNothing(inFrag: bool, scratch: Bytes)
    ensures Assemble([], inFrag, scratch) == Reading([], [])
  {
  }

  // -------------------------------------------------------------- torn tail

  /** A cut inside the next fragment (or the trailer before it) reads as nothing. */
  lemma TornParse(off: nat, fs: seq<Frag>, m: nat)
    requires Fits(off, fs) && m <= |Lay(off, fs)|
    requires fs != [] ==> m < |Pad(off)| + |Phys(fs[0])|
    ensures ParseFrom(off, Lay(off, fs)[..m]) == []
  {
    hide ParseBlock, ParseFile, Phys;
    if fs == [] {
      ParseNothing(off);
    } else if m < |Pad(off)| {
      EmptyBlock(Lay(off, fs)[..m], true);
    } else {
      hide Pad, Start;
      var q := Phys(fs[0])[..m - |Pad(off)|];
      assert Lay(off, fs)[..m] == Pad(off) + q;
      ParsePad(off, q);
      TornFrag(fs[0], |q|);
      ShortBlock(Start(off), q);
    }
  }

  lemma ShortBlock(off: nat, q: Bytes)
    requires off + |q| < BLOCK
    ensures ParseFrom(off, q) == ParseBlock(q, true)
  {
    hide ParseBlock, ParseFile;
  }

  lemma TornFrag(f: Frag, m: nat)
    requires FragOk(f) && m < |Phys(f)|
    ensures ParseBlock(Phys(f)[..m], true) == []
  {
    hide Phys, OfByte, Decode32, ToByte, ChecksumOk;
    var q := Phys(f)[..m];
    if m >= HEADER {
      HeaderFields(f, []);
      assert Phys(f) + [] == Phys(f);
      assert q[4] == Phys(f)[4] && q[5] == Phys(f)[5];
    }
  }

  /** How many fragments lie completely inside the first n bytes. */
  lemma {:induction false} CutLay(off: nat, fs: seq<Frag>, n: nat) returns (k: nat)
    requires Fits(off, fs) && n <= |Lay(off, fs)|
    ensures k <= |fs| && Fits(off, fs[..k]) && |Lay(off, fs[..k])| <= n
    ensures k < |fs| ==> Fits(off, fs[..k + 1]) && n < |Lay(off, fs[..k + 1])|
    ensures ParseFrom(off, Lay(off, fs)[..n]) == Events(fs[..k])
    decreases |fs|
  {
    hide ParseFrom, Phys, Pad, FragOk;
    if fs == [] || n < |Pad(off)| + |Phys(fs[0])| {
      k := 0;
      TornParse(off, fs, n);
      if fs != [] {
        assert fs[..1] == [fs[0]];
        LayOne(off, fs[0]);
      }
    } else {
      var first := |Pad(off)| + |Phys(fs[0])|;
      var o := EndOf(off, fs[0]);
      var j := CutLay(o, fs[1..], n - first);
      k := j + 1;
      assert fs[..k] == [fs[0]] + fs[1..][..j];
      var q := Lay(o, fs[1..])[..n - first];
      assert Lay(off, fs)[..n] == Pad(off) + (Phys(fs[0]) + q);
      ParsePad(off, Phys(fs[0]) + q);
      ParseFrag(Start(off), fs[0], q);
      if j < |fs[1..]| {
        assert fs[..k + 1][1..] == fs[1..][..j + 1];
      }
    }
  }

  lemma LayOne(off: nat, f: Frag)
    requires Fits(off, [f])
    ensures |Lay(off, [f])| == |Pad(off)| + |Phys(f)|
  {
    assert [f][1..] == [];
  }

  lemma LayGrows(off: nat, fs: seq<Frag>, a: nat, b: nat)
    requires Fits(off, fs) && a <= b <= |fs|
    ensures Fits(off, fs[..a]) && Fits(off, fs[..b]) && |Lay(off, fs[..a])| <= |Lay(off, fs[..b])|
  {
    hide Fits, Lay;
    FitsSplit(off, fs, b);
    FitsSplit(off, fs[..b], a);
    assert fs[..b][..a] == fs[..a];
  }

  lemma {:induction false} SplitAllAppend(off: nat, a: seq<Bytes>, b: seq<Bytes>)
    requires off <= BLOCK
    ensures SplitAll(off, a + b) == SplitAll(off, a) + SplitAll(OffsetAfter(off, SplitAll(off, a)), b)
    decreases |a|
  {
    hide Fits, Split, Lay;
    if a == [] {
      assert a + b == b;
    } else {
      hide OffsetAfter;
      assert (a + b)[0] == a[0] && (a + b)[1..] == a[1..] + b;
      var f := Split(off, a[0], true);
      var o := OffsetAfter(off, f);
      SplitAllAppend(o, a[1..], b);
      var x := SplitAll(o, a[1..]);
      FitsAppend(off, f, x);
      var y := SplitAll(OffsetAfter(o, x), b);
      assert f + (x + y) == (f + x) + y;
    }
  }

  lemma {:induction false} PartialRest(
      off: nat, data: Bytes, k: nat, scratch: Bytes, more: seq<Event>) returns (got: Bytes)
    requires off <= BLOCK && k < |Split(off, data, false)|
    ensures Assemble(Events(Split(off, data, false)[..k]) + more, true, scratch) == Assemble(more, true, got)
    decreases |data|, if Start(off) + HEADER == BLOCK then 1 else 0
  {
    hide Fits;
    if k == 0 {
      got := scratch;
      assert Events(Split(off, data, false)[..0]) + more == more;
    } else {
      var n := Take(off, data);
      var f := Frag(MIDDLE, data[..n]);
      var tail := Split(EndOf(off, f), data[n..], false);
      assert Split(off, data, false)[..k] == [f] + tail[..k - 1];
      got := PartialRest(EndOf(off, f), data[n..], k - 1, scratch + f.payload, more);
      var es := Events(Split(off, data, false)[..k]) + more;
      assert es[0] == Got(MIDDLE, f.payload) && es[1..] == Events(tail[..k - 1]) + more;
    }
  }

  /** Part of a record delivers nothing and leaves a fragment open. */
  lemma PartialRecord(
      off: nat, data: Bytes, k: nat, inFrag: bool, scratch: Bytes, more: seq<Event>) returns (got: Bytes)
    requires off <= BLOCK && 0 < k < |Split(off, data, true)|
    ensures Assemble(Events(Split(off, data, true)[..k]) + more, inFrag, scratch)
            == ReportIf(inFrag, |scratch|, Assemble(more, true, got))
  {
    hide Fits;
    var n := Take(off, data);
    var f := Frag(FIRST, data[..n]);
    var tail := Split(EndOf(off, f), data[n..], false);
    assert Split(off, data, true)[..k] == [f] + tail[..k - 1];
    got := PartialRest(EndOf(off, f), data[n..], k - 1, f.payload, more);
    var es := Events(Split(off, data, true)[..k]) + more;
    assert es[0] == Got(FIRST, f.payload) && es[1..] == Events(tail[..k - 1]) + more;
  }

  /** The fragments of the first r records, and where record r begins. */
  lemma RecordSpan(recs: seq<Bytes>, r: nat)
    requires r < |recs|
    ensures var fs, a := SplitAll(0, recs), SplitAll(0, recs[..r]);
            var f := Split(OffsetAfter(0, a), recs[r], true);
            && a <= fs && a + f <= fs && SplitAll(0, recs[..r + 1]) == a + f
  {
    hide Fits, Split, OffsetAfter, SplitAll;
    assert recs == recs[..r] + recs[r..] && recs[..r + 1] == recs[..r] + [recs[r]];
    SplitAllAppend(0, recs[..r], recs[r..]);
    SplitAllAppend(0, recs[..r], [recs[r]]);
    var o := OffsetAfter(0, SplitAll(0, recs[..r]));
    FirstSplit(o, recs[r..]);
    FirstSplit(o, [recs[r]]);
  }

  lemma FirstSplit(off: nat, recs: seq<Bytes>)
    requires off <= BLOCK && recs != []
    ensures Split(off, recs[0], true) <= SplitAll(off, recs)
    ensures |recs| == 1 ==> SplitAll(off, recs) == Split(off, recs[0], true)
  {
    hide Fits, Split, OffsetAfter;
  }

  lemma FragmentCount(recs: seq<Bytes>, n: nat, r: nat, k: nat)
    requires n <= |LogBytes(0, recs)| && r < |recs|
    requires |LogBytes(0, recs[..r])| <= n < |LogBytes(0, recs[..r + 1])|
    requires var fs := SplitAll(0, recs);
             && k <= |fs| && Fits(0, fs[..k]) && |Lay(0, fs[..k])| <= n
             && (k < |fs| ==> Fits(0, fs[..k + 1]) && n < |Lay(0, fs[..k + 1])|)
    ensures var a := SplitAll(0, recs[..r]);
            |a| <= k < |a| + |Split(OffsetAfter(0, a), recs[r], true)|
  {
    hide Fits, Lay, Split, OffsetAfter, SplitAll;
    RecordSpan(recs, r);
    var fs, a := SplitAll(0, recs), SplitAll(0, recs[..r]);
    var b := SplitAll(0, recs[..r + 1]);
    assert fs[..|a|] == a && fs[..|b|] == b;
    if k < |a| {
      LayGrows(0, fs, k + 1, |a|);
    } else if |b| <= k {
      LayGrows(0, fs, |b|, k);
    }
  }

  /** Torn tail: of the first n bytes of a log, the reader returns exactly the
      records that end inside them, in order, and reports nothing. */
  lemma TornTail(recs: seq<Bytes>, n: nat, r: nat)
    requires n <= |LogBytes(0, recs)| && r <= |recs|
    requires |LogBytes(0, recs[..r])| <= n
    requires r < |recs| ==> n < |LogBytes(0, recs[..r + 1])|
    ensures ReadAll(LogBytes(0, recs)[..n]) == Reading(recs[..r], [])
  {
    hide Fits, Lay, Split, OffsetAfter, SplitAll, ParseFrom, ParseFile, Assemble;
    if r == |recs| {
      assert recs[..r] == recs;
      var file := LogBytes(0, recs);
      assert file[..n] == file;
      RoundTrip(recs);
    } else {
      var fs := SplitAll(0, recs);
      var k := CutLay(0, fs, n);
      FragmentCount(recs, n, r, k);
      RecordSpan(recs, r);
      var a := SplitAll(0, recs[..r]);
      var f := Split(OffsetAfter(0, a), recs[r], true);
      assert fs[..k] == a + f[..k - |a|];
      EventsAppend(a, f[..k - |a|]);
      AssembleAll(0, recs[..r], Events(f[..k - |a|]));
      OpenRecord(OffsetAfter(0, a), recs[r], k - |a|);
      ParseStart(LogBytes(0, recs)[..n]);
    }
  }

  lemma OpenRecord(off: nat, data: Bytes, k: nat)
    requires off <= BLOCK && k < |Split(off, data, true)|
    ensures Assemble(Events(Split(off, data, true)[..k]), false, []) == Reading([], [])
  {
    hide Fits, Split, Assemble;
    var es := Events(Split(off, data, true)[..k]);
    if k == 0 {
      AssembleNothing(false, []);
    } else {
      assert es + [] == es;
      var got := PartialRecord(off, data, k, false, [], []);
      AssembleNothing(true, got);
    }
  }
}
