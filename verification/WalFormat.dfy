/** The write-ahead log format: how fragments are laid out in 32KB blocks, and how
    a byte string is parsed back into physical records and whole records. */
module WalFormat {
  import opened Coding
  import Crc = Crc32c

  const BLOCK: nat := 32768
  const HEADER: nat := 7

  const ZERO: nat := 0
  const FULL: nat := 1
  const FIRST: nat := 2
  const MIDDLE: nat := 3
  const LAST: nat := 4
  const EOF: nat := 5
  const BAD: nat := 6

  // ---------------------------------------------------------------- layout

  /** A physical record as the writer emits it. */
  datatype Frag = Frag(kind: nat, payload: Bytes)

  ghost predicate FragOk(f: Frag) { FULL <= f.kind <= LAST && HEADER + |f.payload| <= BLOCK }

  /** The checksum stored for a fragment: over the type byte and the payload. */
  function Checksum(kind: bv8, payload: Bytes): U32 {
    Crc.Mask(Crc.Value([kind] + payload)) as nat
  }

  function Header(f: Frag): (h: Bytes)
    requires FragOk(f)
    ensures |h| == HEADER
  {
    Fixed32(Checksum(ToByte(f.kind), f.payload))
    + [ToByte(|f.payload| % 256), ToByte(|f.payload| / 256), ToByte(f.kind)]
  }

  function Phys(f: Frag): (s: Bytes)
    requires FragOk(f)
    ensures |s| == HEADER + |f.payload|
  {
    Header(f) + f.payload
  }

  function Zeros(n: nat): (z: Bytes)
    ensures |z| == n
  {
    seq(n, _ => 0)
  }

  /** The zero trailer of a block with less than a header left. */
  function Pad(off: nat): Bytes
    requires off <= BLOCK
  {
    if BLOCK - off < HEADER then Zeros(BLOCK - off) else []
  }

  /** Where the next header goes. */
  function Start(off: nat): (s: nat)
    requires off <= BLOCK
    ensures s + HEADER <= BLOCK
  {
    if BLOCK - off < HEADER then 0 else off
  }

  function EndOf(off: nat, f: Frag): nat
    requires off <= BLOCK
  {
    Start(off) + HEADER + |f.payload|
  }

  /** Every fragment stays inside its block. */
  ghost predicate Fits(off: nat, fs: seq<Frag>)
    decreases |fs|
  {
    && off <= BLOCK
    && (fs != [] ==> FragOk(fs[0]) && EndOf(off, fs[0]) <= BLOCK && Fits(EndOf(off, fs[0]), fs[1..]))
  }

  /** The bytes of fs written from block offset off. */
  function Lay(off: nat, fs: seq<Frag>): Bytes
    requires Fits(off, fs)
    decreases |fs|
  {
    if fs == [] then [] else Pad(off) + Phys(fs[0]) + Lay(EndOf(off, fs[0]), fs[1..])
  }

  /** The block offset after fs. */
  function OffsetAfter(off: nat, fs: seq<Frag>): (o: nat)
    requires Fits(off, fs)
    ensures o <= BLOCK
    decreases |fs|
  {
    if fs == [] then off else OffsetAfter(EndOf(off, fs[0]), fs[1..])
  }

  // --------------------------------------------------------------- parsing

  /** What one physical read yields: a record, a skipped stretch of padding, or
      bytes reported as dropped. */
  datatype Event = Got(kind: nat, payload: Bytes) | Skip | Dropped(bytes: nat)

  function PayloadLength(buf: Bytes): nat
    requires |buf| >= HEADER
  {
    OfByte(buf[4]) + 256 * OfByte(buf[5])
  }

  predicate ChecksumOk(buf: Bytes)
    requires |buf| >= HEADER && HEADER + PayloadLength(buf) <= |buf|
  {
    Crc.Value(buf[6..HEADER + PayloadLength(buf)]) == Crc.Unmask(Decode32(buf) as bv32)
  }

  /** The physical reads of one block; last says the block ended the file. */
  function ParseBlock(buf: Bytes, last: bool): seq<Event>
    decreases |buf|
  {
    if |buf| < HEADER then []
    else if HEADER + PayloadLength(buf) > |buf| then (if last then [] else [Dropped(|buf|)])
    else if OfByte(buf[6]) == ZERO && PayloadLength(buf) == 0 then [Skip] + ParseBlock(buf[HEADER..], last)
    else if !ChecksumOk(buf) then [Dropped(|buf|)]
    else [Got(OfByte(buf[6]), buf[HEADER..HEADER + PayloadLength(buf)])]
         + ParseBlock(buf[HEADER + PayloadLength(buf)..], last)
  }

  function ParseFile(file: Bytes): seq<Event>
    decreases |file|
  {
    if |file| < BLOCK then ParseBlock(file, true)
    else ParseBlock(file[..BLOCK], false) + ParseFile(file[BLOCK..])
  }

  /** The rest of a file, read from inside a block. */
  function ParseFrom(off: nat, rest: Bytes): seq<Event>
    requires off <= BLOCK
  {
    if off + |rest| < BLOCK then ParseBlock(rest, true)
    else ParseBlock(rest[..BLOCK - off], false) + ParseFile(rest[BLOCK - off..])
  }

  // ------------------------------------------------------------ reassembly

  datatype Reading = Reading(records: seq<Bytes>, reports: seq<nat>)

  function Report(n: nat, r: Reading): Reading { r.(reports := [n] + r.reports) }

  function Deliver(record: Bytes, r: Reading): Reading { r.(records := [record] + r.records) }

  function ReportIf(b: bool, n: nat, r: Reading): Reading { if b then Report(n, r) else r }

  /** Whole records and corruption reports from the physical reads, starting with
      part of a fragmented record (if inFrag) in scratch. */
  function Assemble(es: seq<Event>, inFrag: bool, scratch: Bytes): Reading
    decreases |es|
  {
    if es == [] then Reading([], [])
    else
      match es[0]
      case Dropped(n) => Report(n, ReportIf(inFrag, |scratch|, Assemble(es[1..], false, [])))
      case Skip => ReportIf(inFrag, |scratch|, Assemble(es[1..], false, []))
      case Got(kind, p) =>
        if kind == FULL then ReportIf(inFrag, |scratch|, Deliver(p, Assemble(es[1..], false, [])))
        else if kind == FIRST then ReportIf(inFrag, |scratch|, Assemble(es[1..], true, p))
        else if kind == MIDDLE then
          if inFrag then Assemble(es[1..], true, scratch + p) else Report(|p|, Assemble(es[1..], false, scratch))
        else if kind == LAST then
          if inFrag then Deliver(scratch + p, Assemble(es[1..], false, []))
          else Report(|p|, Assemble(es[1..], false, scratch))
        else if kind == EOF then Reading([], [])
        else if kind == BAD then ReportIf(inFrag, |scratch|, Assemble(es[1..], false, []))
        else Report(|p| + (if inFrag then |scratch| else 0), Assemble(es[1..], false, []))
  }

  /** Everything a reader delivers from a file. */
  function ReadAll(file: Bytes): Reading { Assemble(ParseFile(file), false, []) }

  // ---------------------------------------------- parsing undoes the layout

  function Events(fs: seq<Frag>): (es: seq<Event>)
    ensures |es| == |fs|
  {
    seq(|fs|, i requires 0 <= i < |fs| => Got(fs[i].kind, fs[i].payload))
  }

  lemma HeaderFields(f: Frag, rest: Bytes)
    requires FragOk(f)
    ensures var b := Phys(f) + rest;
            && PayloadLength(b) == |f.payload| && OfByte(b[6]) == f.kind && ToByte(f.kind) == b[6]
            && Decode32(b) == Checksum(ToByte(f.kind), f.payload)
  {
    hide Checksum, ToByte, OfByte, Decode32, Fixed32;
    var b, h := Phys(f) + rest, Header(f);
    var tail := h[4..] + f.payload + rest;
    assert b == Fixed32(Checksum(ToByte(f.kind), f.payload)) + tail;
    Fixed32RoundTrip(Checksum(ToByte(f.kind), f.payload), tail);
    assert b[4] == h[4] && b[5] == h[5] && b[6] == h[6];
    NatOfByte(|f.payload| % 256);
    NatOfByte(|f.payload| / 256);
    NatOfByte(f.kind);
  }

  lemma MaskedBack(x: bv32)
    ensures Crc.Unmask((Crc.Mask(x) as nat) as bv32) == x
  {
    hide Crc.Mask, Crc.Unmask;
    Crc.MaskRoundTrip(x);
    assert (Crc.Mask(x) as nat) as bv32 == Crc.Mask(x);
  }

  lemma PhysChecks(f: Frag, rest: Bytes)
    requires FragOk(f)
    ensures var b := Phys(f) + rest;
            PayloadLength(b) == |f.payload| && OfByte(b[6]) == f.kind && ChecksumOk(b)
  {
    hide Crc.Value, Crc.Mask, Crc.Unmask, Decode32, ToByte, OfByte, Phys;
    var b := Phys(f) + rest;
    HeaderFields(f, rest);
    PhysTail(f, rest);
    MaskedBack(Crc.Value([ToByte(f.kind)] + f.payload));
  }

  lemma PhysTail(f: Frag, rest: Bytes)
    requires FragOk(f)
    ensures var b := Phys(f) + rest; var n := |f.payload|;
            && b[6..HEADER + n] == [ToByte(f.kind)] + f.payload
            && b[HEADER..HEADER + n] == f.payload && b[HEADER + n..] == rest
  {
    hide ToByte, Fixed32, Checksum;
    var b := Phys(f) + rest;
    assert Header(f)[6] == ToByte(f.kind);
  }

  lemma ParseOne(f: Frag, rest: Bytes, last: bool)
    requires FragOk(f)
    ensures ParseBlock(Phys(f) + rest, last) == [Got(f.kind, f.payload)] + ParseBlock(rest, last)
  {
    hide ChecksumOk, PayloadLength, Phys, OfByte;
    PhysChecks(f, rest);
    PhysTail(f, rest);
  }

  /** Reading a fragment that fits moves on to the next offset. */
  lemma ParseFrag(off: nat, f: Frag, rest: Bytes)
    requires FragOk(f) && off + HEADER + |f.payload| <= BLOCK
    ensures ParseFrom(off, Phys(f) + rest) == [Got(f.kind, f.payload)] + ParseFrom(off + HEADER + |f.payload|, rest)
  {
    hide ParseBlock, ParseFile, Phys;
    var n := HEADER + |f.payload|;
    var all := Phys(f) + rest;
    if off + |all| < BLOCK {
      ParseOne(f, rest, true);
    } else {
      assert all[..BLOCK - off] == Phys(f) + rest[..BLOCK - off - n];
      assert all[BLOCK - off..] == rest[BLOCK - off - n..];
      ParseOne(f, rest[..BLOCK - off - n], false);
    }
  }

  lemma ParseStart(rest: Bytes)
    ensures ParseFrom(0, rest) == ParseFile(rest) == ParseFrom(BLOCK, rest)
  {
    hide ParseBlock;
    assert rest[..0] == [] && rest[0..] == rest;
    EmptyBlock([], false);
  }

  lemma EmptyBlock(buf: Bytes, last: bool)
    requires |buf| < HEADER
    ensures ParseBlock(buf, last) == []
  {
  }

  /** A trailer is skipped without a trace. */
  lemma ParsePad(off: nat, rest: Bytes)
    requires off <= BLOCK
    ensures ParseFrom(off, Pad(off) + rest) == ParseFrom(Start(off), rest)
  {
    hide ParseBlock, ParseFile;
    if BLOCK - off < HEADER {
      var all := Pad(off) + rest;
      assert all[..BLOCK - off] == Pad(off) && all[BLOCK - off..] == rest;
      EmptyBlock(Pad(off), false);
      ParseStart(rest);
    } else {
      assert Pad(off) + rest == rest;
    }
  }

  /** Parsing a layout gives its fragments and goes on with what follows it. */
  lemma {:induction false} ParseLay(off: nat, fs: seq<Frag>, rest: Bytes)
    requires Fits(off, fs)
    ensures ParseFrom(off, Lay(off, fs) + rest) == Events(fs) + ParseFrom(OffsetAfter(off, fs), rest)
    decreases |fs|
  {
    hide ParseFrom, Phys, Pad, Events;
    EventsFirst(fs);
    if fs == [] {
      assert Lay(off, fs) + rest == rest;
    } else {
      var f, o := fs[0], EndOf(off, fs[0]);
      var more := Lay(o, fs[1..]) + rest;
      assert Lay(off, fs) + rest == Pad(off) + (Phys(f) + more);
      ParsePad(off, Phys(f) + more);
      ParseFrag(Start(off), f, more);
      ParseLay(o, fs[1..], rest);
    }
  }

  lemma EventsFirst(fs: seq<Frag>)
    ensures Events(fs) == if fs == [] then [] else [Got(fs[0].kind, fs[0].payload)] + Events(fs[1..])
  {
  }
}
