/** The log reader: an object that pulls blocks from its file, consumes physical
    records from the current block and reassembles whole records. */
module WalReader {
  import opened Coding
  import opened WalFormat

  class Reader {
    var file: Bytes          // not yet read
    var buffer: Bytes        // unconsumed bytes of the current block
    var eof: bool
    var reports: seq<nat>    // bytes reported as dropped, in order

    /** The physical reads still to come. */
    ghost function Pending(): seq<Event>
      reads this`file, this`buffer, this`eof
    {
      ParseBlock(buffer, eof) + (if eof then [] else ParseFile(file))
    }

    constructor (contents: Bytes)
      ensures Pending() == ParseFile(contents) && reports == []
    {
      hide ParseBlock, ParseFile;
      file, buffer, eof, reports := contents, [], false, [];
      new;
      EmptyBlock(buffer, eof);
      assert Pending() == [] + ParseFile(contents);
    }

    method ReportDrop(bytes: nat)
      modifies this`reports
      ensures reports == old(reports) + [bytes]
    {
      reports := reports + [bytes];
    }

    /** Replaces a used-up buffer by the next block; a short block ends the file. */
    method ReadBlock()
      requires |buffer| < HEADER && !eof
      modifies this`file, this`buffer, this`eof
      ensures Pending() == old(Pending())
      ensures eof || (|buffer| == BLOCK && |file| < |old(file)|)
    {
      hide ParseBlock;
      EmptyBlock(buffer, eof);
      var n := if |file| < BLOCK then |file| else BLOCK;
      assert n == |file| ==> file[..n] == file;
      buffer := file[..n];
      file := file[n..];
      if n < BLOCK {
        eof := true;
      }
    }

    /** Takes the next physical read off the pending ones. */
    method ReadPhysicalRecord() returns (kind: nat, fragment: Bytes)
      modifies this
      ensures old(Pending()) == [] ==> kind == EOF && Pending() == [] && reports == old(reports)
      ensures old(Pending()) != [] ==>
                Pending() == old(Pending())[1..] && Yields(old(Pending())[0], kind, fragment, old(reports), reports)
    {
      fragment := [];
      while true
        invariant Pending() == old(Pending()) && reports == old(reports)
        decreases if eof then 0 else 1 + |file|
      {
        if |buffer| < HEADER {
          if eof {
            buffer := [];
            return EOF, [];
          }
          ReadBlock();
          continue;
        }
        kind, fragment := ParseHeader();
        return;
      }
    }

    /** Decides about the record at the front of the buffer. */
    method ParseHeader() returns (kind: nat, fragment: Bytes)
      requires |buffer| >= HEADER
      modifies this`buffer, this`reports
      ensures old(Pending()) == [] ==> kind == EOF && Pending() == [] && reports == old(reports)
      ensures old(Pending()) != [] ==>
                Pending() == old(Pending())[1..] && Yields(old(Pending())[0], kind, fragment, old(reports), reports)
    {
      hide ChecksumOk, OfByte, ParseFile, ParseBlock;
      NextEvent(buffer, eof);
      fragment := [];
      var length := OfByte(buffer[4]) + 256 * OfByte(buffer[5]);
      kind := OfByte(buffer[6]);
      assert length == PayloadLength(buffer);
      if HEADER + length > |buffer| {
        var drop := |buffer|;
        buffer := [];
        EmptyBlock(buffer, eof);
        if !eof {
          ReportDrop(drop);
          return BAD, [];
        }
        return EOF, [];
      }
      if kind == ZERO && length == 0 {
        buffer := buffer[HEADER..];
        assert old(Pending()) == [Skip] + Pending();
        return BAD, [];
      }
      if !ChecksumOk(buffer) {
        var drop := |buffer|;
        buffer := [];
        EmptyBlock(buffer, eof);
        ReportDrop(drop);
        return BAD, [];
      }
      fragment := buffer[HEADER..HEADER + length];
      buffer := buffer[HEADER + length..];
      assert old(Pending()) == [Got(kind, fragment)] + Pending();
    }

    /** The next whole record; everything skipped on the way is reported. */
    method ReadRecord() returns (ok: bool, record: Bytes)
      modifies this
      ensures var before, after := Assemble(old(Pending()), false, []), Assemble(Pending(), false, []);
              && (ok ==> before.records == [record] + after.records
                         && old(reports) + before.reports == reports + after.reports)
              && (!ok ==> before.records == [] && reports == old(reports) + before.reports)
      ensures ok ==> |Pending()| < |old(Pending())|
    {
      hide Pending, Assemble, ParseBlock, ParseFile;
      ghost var before := Assemble(Pending(), false, []);
      var scratch: Bytes, inFrag := [], false;
      while true
        invariant inFrag || scratch == []
        invariant |Pending()| <= |old(Pending())|
        invariant Assemble(Pending(), inFrag, scratch).records == before.records
        invariant reports + Assemble(Pending(), inFrag, scratch).reports == old(reports) + before.reports
        decreases |Pending()|
      {
        ghost var es, said := Pending(), reports;
        AssembleNext(es, inFrag, scratch);
        var kind, fragment := ReadPhysicalRecord();
        if kind == FULL {
          if inFrag {
            ReportDrop(|scratch|);
          }
          return true, fragment;
        } else if kind == FIRST {
          if inFrag {
            ReportDrop(|scratch|);
          }
          scratch := fragment;
          inFrag := true;
        } else if kind == MIDDLE {
          if !inFrag {
            ReportDrop(|fragment|);
          } else {
            scratch := scratch + fragment;
          }
        } else if kind == LAST {
          if !inFrag {
            ReportDrop(|fragment|);
          } else {
            scratch := scratch + fragment;
            return true, scratch;
          }
        } else if kind == EOF {
          return false, [];
        } else if kind == BAD {
          if inFrag {
            ReportDrop(|scratch|);
            inFrag := false;
            scratch := [];
          }
        } else {
          ReportDrop(|fragment| + if inFrag then |scratch| else 0);
          inFrag := false;
          scratch := [];
        }
      }
    }
  }

  /** The front of a block decides its first event. */
  lemma NextEvent(buf: Bytes, last: bool)
    requires |buf| >= HEADER
    ensures var n := HEADER + PayloadLength(buf);
            ParseBlock(buf, last)
            == if n > |buf| then (if last then [] else [Dropped(|buf|)])
               else if OfByte(buf[6]) == ZERO && n == HEADER then [Skip] + ParseBlock(buf[HEADER..], last)
               else if !ChecksumOk(buf) then [Dropped(|buf|)]
               else [Got(OfByte(buf[6]), buf[HEADER..n])] + ParseBlock(buf[n..], last)
  {
    hide ChecksumOk, PayloadLength, OfByte;
  }

  ghost predicate GotNext(es: seq<Event>, inFrag: bool, scratch: Bytes, kind: nat, p: Bytes)
    requires es != []
  {
    var r := Assemble(es, inFrag, scratch);
    if kind == FULL then r == ReportIf(inFrag, |scratch|, Deliver(p, Assemble(es[1..], false, [])))
    else if kind == FIRST then r == ReportIf(inFrag, |scratch|, Assemble(es[1..], true, p))
    else if kind == MIDDLE && inFrag then r == Assemble(es[1..], true, scratch + p)
    else if kind == LAST && inFrag then r == Deliver(scratch + p, Assemble(es[1..], false, []))
    else if kind == MIDDLE || kind == LAST then r == Report(|p|, Assemble(es[1..], false, scratch))
    else if kind == BAD then r == ReportIf(inFrag, |scratch|, Assemble(es[1..], false, []))
    else r == Report(|p| + (if inFrag then |scratch| else 0), Assemble(es[1..], false, []))
  }

  /** The next event decides what happens to the record being put together. */
  lemma AssembleNext(es: seq<Event>, inFrag: bool, scratch: Bytes)
    ensures es == [] || (es[0].Got? && es[0].kind == EOF) ==> Assemble(es, inFrag, scratch) == Reading([], [])
    ensures es != [] && es[0].Got? && es[0].kind != EOF ==> GotNext(es, inFrag, scratch, es[0].kind, es[0].payload)
    ensures es != [] && !es[0].Got?
            ==> var rest := ReportIf(inFrag, |scratch|, Assemble(es[1..], false, []));
                Assemble(es, inFrag, scratch) == if es[0].Skip? then rest else Report(es[0].bytes, rest)
  {
  }

  /** What ReadPhysicalRecord hands back for an event, and what it reports. */
  ghost predicate Yields(e: Event, kind: nat, fragment: Bytes, before: seq<nat>, after: seq<nat>) {
    match e
    case Got(k, p) => kind == k && fragment == p && after == before
    case Skip => kind == BAD && after == before
    case Dropped(n) => kind == BAD && after == before + [n]
  }

  /** The loop every client runs: read until there is no further record. */
  method ReadLog(contents: Bytes) returns (records: seq<Bytes>, reports: seq<nat>)
    ensures Reading(records, reports) == ReadAll(contents)
  {
    hide Assemble, ParseFile, ParseBlock;
    var reader := new Reader(contents);
    records := [];
    ghost var all := ReadAll(contents);
    var ok, record := reader.ReadRecord();
    while ok
      invariant ok ==> all.records == records + [record] + Assemble(reader.Pending(), false, []).records
      invariant ok ==> all.reports == reader.reports + Assemble(reader.Pending(), false, []).reports
      invariant !ok ==> all == Reading(records, reader.reports)
      decreases ok, |reader.Pending()|
    {
      records := records + [record];
      ok, record := reader.ReadRecord();
    }
    reports := reader.reports;
  }
}
