/** Durable storage of a Raft node: the record stream of Durability, encoded and
    kept in a write-ahead log. */
module RaftStorage {
  import opened RaftTypes
  import opened Durability
  import opened RaftRecords
  import RaftCore
  import Cluster = RaftCluster
  import T = RaftTheorems
  import Spec = RaftSpec
  import F = WalFormat
  import R = WalRecords
  import W = WalWriter
  import WalReader

  /** What opening a log file recovers. */
  function Recovery(file: Bytes): Durable {
    ReplayRecords(Durable(0, 0, []), F.ReadAll(file).records)
  }

  class Storage {
    var writer: W.Writer
    var persisted: nat
    var recoveredTerm: Term
    var recoveredVote: NodeId
    var recoveredEntries: seq<Entry>

    ghost predicate Valid()
      reads this, writer, writer.table, writer.typeCrc
    {
      writer.Valid()
    }

    ghost function Recovered(): Durable
      reads this`recoveredTerm, this`recoveredVote, this`recoveredEntries
    {
      Durable(recoveredTerm, recoveredVote, recoveredEntries)
    }

    /** Replays what the file holds, then resumes it. */
    constructor (contents: Bytes)
      ensures Valid() && writer.dest == contents
      ensures Recovered() == Recovery(contents) && persisted == PersistedIndex(Recovered())
      ensures fresh(writer) && fresh(writer.table) && fresh(writer.typeCrc)
    {
      hide F.ReadAll, ReplayRecords;
      recoveredTerm, recoveredVote, recoveredEntries, persisted := 0, 0, [], 0;
      writer := new W.Writer(contents);
      new;
      ReplayFile(contents);
    }

    method ReplayFile(contents: Bytes)
      modifies this`recoveredTerm, this`recoveredVote, this`recoveredEntries, this`persisted
      ensures Recovered() == ReplayRecords(old(Recovered()), F.ReadAll(contents).records)
      ensures persisted == PersistedIndex(Recovered())
    {
      hide F.Assemble, F.ParseFile, F.ParseBlock, ReplayRecord, ReplayRecords, PersistedIndex, Recovered;
      ReplayNone(Recovered());
      var reader := new WalReader.Reader(contents);
      ghost var all, done := F.ReadAll(contents).records, [];
      assert all == done + F.Assemble(reader.Pending(), false, []).records;
      var ok, record := reader.ReadRecord();
      while ok
        invariant Recovered() == ReplayRecords(old(Recovered()), done)
        invariant ok ==> all == done + [record] + F.Assemble(reader.Pending(), false, []).records
        invariant !ok ==> all == done
        decreases ok, |reader.Pending()|
      {
        ReplayNext(record);
        ReplaySnoc(old(Recovered()), done, record);
        done := done + [record];
        ok, record := reader.ReadRecord();
      }
      persisted := LastRecovered();
    }

    method LastRecovered() returns (i: nat)
      ensures i == PersistedIndex(Recovered())
    {
      i := if recoveredEntries == [] then 0 else recoveredEntries[|recoveredEntries| - 1].index;
    }

    /** Decodes one record and takes over what it says. */
    method ReplayNext(record: Bytes)
      modifies this`recoveredTerm, this`recoveredVote, this`recoveredEntries
      ensures Recovered() == ReplayRecord(old(Recovered()), record)
    {
      hide GetU64, GetU32, GetBytes, Pop;
      if record == [] {
        return;
      }
      var d := new Decoder(record[1..]);
      if record[0] == HARD_STATE {
        var t := d.U64();
        var v := d.U64();
        if d.ok {
          recoveredTerm, recoveredVote := t, v;
        }
      } else if record[0] == ENTRY {
        var t := d.U64();
        var i := d.U64();
        var n := d.U32();
        var data := d.Bytes(n);
        if d.ok {
          recoveredEntries := recoveredEntries + [Entry(t, i, data)];
        }
      } else if record[0] == TRUNCATE {
        var from := d.U64();
        if d.ok {
          DropFrom(from);
        }
      }
    }

    /** Pops entries off the back while their index is at least from. */
    method DropFrom(from: nat)
      modifies this`recoveredEntries
      ensures recoveredEntries == Pop(old(recoveredEntries), from)
    {
      while recoveredEntries != [] && recoveredEntries[|recoveredEntries| - 1].index >= from
        invariant Pop(recoveredEntries, from) == Pop(old(recoveredEntries), from)
        decreases |recoveredEntries|
      {
        recoveredEntries := recoveredEntries[..|recoveredEntries| - 1];
      }
    }

    /** Appends what the node has not yet stored and moves the watermarks. */
    method Save(raft: RaftCore.Raft)
      requires Valid()
      modifies this`persisted, writer`dest, writer`blockOffset, raft`dirty, raft`stable
      ensures Valid() && persisted == LastIndex(raft.log)
      ensures raft.State() == Saved(old(raft.State()))
      ensures writer.dest == W.Append(old(writer.dest), EncodeAll(Batch(old(raft.State()), old(persisted))))
    {
      hide Encode, W.Append, W.Writer.Valid;
      ghost var node, before, file := raft.State(), persisted, writer.dest;
      ghost var done: seq<Rec> := [];
      W.AppendNothing(file);
      if raft.dirty {
        Put(HardState(raft.term, raft.vote), file, done);
        done := done + [HardState(raft.term, raft.vote)];
        raft.dirty := false;
      }
      assert done == HardPart(node);
      if raft.stable < persisted {
        Put(Truncate(raft.stable + 1), file, done);
        done := done + [Truncate(raft.stable + 1)];
        persisted := raft.stable;
      }
      assert done == HardPart(node) + TruncatePart(node, before) && persisted == Kept(node, before);
      PutEntries(raft, file, done);
      persisted := LastIndex(raft.log);
      raft.stable := LastIndex(raft.log);
    }

    /** Writes one record behind those already appended to file. */
    method Put(r: Rec, ghost file: Bytes, ghost done: seq<Rec>)
      requires Valid() && writer.dest == W.Append(file, EncodeAll(done))
      modifies writer`dest, writer`blockOffset
      ensures Valid() && writer.dest == W.Append(file, EncodeAll(done + [r]))
    {
      hide Encode, W.Append, W.Writer.Valid;
      writer.AddRecord(Encode(r));
      W.AppendTwice(file, EncodeAll(done), [Encode(r)]);
      assert EncodeAll(done + [r]) == EncodeAll(done) + [Encode(r)];
    }

    method PutEntries(raft: RaftCore.Raft, ghost file: Bytes, ghost done: seq<Rec>)
      requires Valid() && writer.dest == W.Append(file, EncodeAll(done))
      modifies writer`dest, writer`blockOffset
      ensures Valid()
      ensures writer.dest == W.Append(file, EncodeAll(done + LogRecs(Spec.Suffix(raft.log, persisted + 1))))
    {
      hide EncodeAll, W.Append, W.Writer.Valid;
      ghost var es: seq<Entry> := [];
      var i := persisted + 1;
      assert done + LogRecs(es) == done;
      while i <= LastIndex(raft.log)
        invariant persisted + 1 <= i && (i <= |raft.log| || i == persisted + 1)
        invariant es == if i <= |raft.log| then raft.log[persisted + 1..i] else []
        invariant Valid() && writer.dest == W.Append(file, EncodeAll(done + LogRecs(es)))
      {
        Put(LogRec(raft.log[i]), file, done + LogRecs(es));
        assert done + LogRecs(es + [raft.log[i]]) == done + LogRecs(es) + [LogRec(raft.log[i])];
        es := es + [raft.log[i]];
        i := i + 1;
      }
      assert es == Spec.Suffix(raft.log, persisted + 1);
    }
  }

  // ---------------------------------------------------------- the file

  /** The log file that holds exactly rs. */
  function FileOf(rs: seq<Rec>): Bytes { R.LogBytes(0, EncodeAll(rs)) }

  ghost predicate AllFit(rs: seq<Rec>) { forall r | r in rs :: Fit(r) }

  /** Reading a file back gives what replaying its records gives. */
  lemma FileRecovers(rs: seq<Rec>)
    requires AllFit(rs)
    ensures Recovery(FileOf(rs)) == Replay(rs)
  {
    hide F.ReadAll, R.LogBytes, ReplayRecords;
    R.RoundTrip(EncodeAll(rs));
    ReplayEncoded(Durable(0, 0, []), rs);
  }

  /** Saving to a file extends its records by the batch, however often the file
      was closed and reopened before. */
  lemma FileGrows(rs: seq<Rec>, batch: seq<Rec>)
    ensures W.Append(FileOf(rs), EncodeAll(batch)) == FileOf(rs + batch)
  {
    hide W.Append, R.LogBytes, Encode;
    W.AppendFirst(EncodeAll(rs));
    W.AppendTwice([], EncodeAll(rs), EncodeAll(batch));
    W.AppendFirst(EncodeAll(rs) + EncodeAll(batch));
    assert EncodeAll(rs + batch) == EncodeAll(rs) + EncodeAll(batch);
  }

  /** After a Save the bytes in the file bring back exactly the term, the vote and
      the log of the node. */
  lemma SaveIsDurable(n: Node, persisted: nat, rs: seq<Rec>)
    requires InStep(n, persisted, Replay(rs)) && AllFit(rs + Batch(n, persisted))
    ensures Recovery(W.Append(FileOf(rs), EncodeAll(Batch(n, persisted)))) == Durable(n.term, n.vote, n.log[1..])
  {
    hide Recovery, FileOf, W.Append, Batch, InStep, Replay;
    FileGrows(rs, Batch(n, persisted));
    FileRecovers(rs + Batch(n, persisted));
    SaveRefines(n, persisted, rs);
  }

  // -------------------------------------------------- cut at any byte

  lemma FilePrefix(rs: seq<Rec>, k: nat)
    requires k <= |rs|
    ensures FileOf(rs[..k]) <= FileOf(rs)
  {
    hide FileOf, W.Append, EncodeAll;
    FileGrows(rs[..k], rs[k..]);
    assert rs == rs[..k] + rs[k..];
    W.AppendExtends(FileOf(rs[..k]), EncodeAll(rs[k..]));
  }

  /** How many records lie completely inside the first n bytes. */
  lemma {:induction false} WholeRecords(rs: seq<Rec>, n: nat) returns (k: nat)
    requires n <= |FileOf(rs)|
    ensures k <= |rs| && |FileOf(rs[..k])| <= n
    ensures k < |rs| ==> n < |FileOf(rs[..k + 1])|
    decreases |rs|
  {
    hide FileOf;
    assert rs[..|rs|] == rs;
    if rs == [] || n == |FileOf(rs)| {
      k := |rs|;
      if rs == [] {
        EmptyFile();
      }
    } else {
      var init := rs[..|rs| - 1];
      if |FileOf(init)| <= n {
        k := |rs| - 1;
      } else {
        k := WholeRecords(init, n);
        assert init[..k] == rs[..k];
        if k < |init| {
          assert init[..k + 1] == rs[..k + 1];
        }
      }
    }
  }

  lemma EmptyFile()
    ensures FileOf([]) == []
  {
  }

  /** Any byte prefix of a file recovers as some record prefix of it. */
  lemma CutFile(rs: seq<Rec>, n: nat) returns (k: nat)
    requires AllFit(rs) && n <= |FileOf(rs)|
    ensures k <= |rs| && |FileOf(rs[..k])| <= n && (k < |rs| ==> n < |FileOf(rs[..k + 1])|)
    ensures Recovery(FileOf(rs)[..n]) == Replay(rs[..k])
  {
    hide F.ReadAll, R.LogBytes, ReplayRecords, Encode, Fit;
    k := WholeRecords(rs, n);
    var bs := EncodeAll(rs);
    assert bs[..k] == EncodeAll(rs[..k]);
    if k < |rs| {
      assert bs[..k + 1] == EncodeAll(rs[..k + 1]);
    }
    R.TornTail(bs, n, k);
    ReplayEncoded(Durable(0, 0, []), rs[..k]);
  }

  /** Crash in the middle of a Save, at any byte: the hard state recovered is the
      old or the new one, and the log is the old durable one or a prefix of the new
      one that keeps at least its stable part. */
  lemma SaveCrash(n: Node, persisted: nat, rs: seq<Rec>, cut: nat)
    requires InStep(n, persisted, Replay(rs)) && AllFit(rs + Batch(n, persisted))
    requires |FileOf(rs)| <= cut <= |FileOf(rs + Batch(n, persisted))|
    ensures var d, was := Recovery(FileOf(rs + Batch(n, persisted))[..cut]), Replay(rs);
            && ((d.term, d.vote) == (was.term, was.vote) || (d.term, d.vote) == (n.term, n.vote))
            && (d.entries == was.entries
                || (n.stable <= |d.entries| <= LastIndex(n.log) && d.entries == n.log[1..|d.entries| + 1]))
  {
    hide Recovery, FileOf, Batch, InStep, Replay, AllFit;
    var b := Batch(n, persisted);
    var all := rs + b;
    var k := CutFile(all, cut);
    if k < |rs| {
      assert rs[..k + 1] == all[..k + 1];
      FilePrefix(rs, k + 1);
    } else {
      var j := k - |rs|;
      assert all[..k] == rs + b[..j];
      if j == 0 {
        assert rs + b[..0] == rs;
      } else {
        SaveTorn(n, persisted, rs, j);
      }
    }
  }

  /** In every run, the file that holds a server's records brings back exactly the
      term, the vote and the log of the live node. */
  lemma RunFileIsTruth(ms: set<NodeId>, run: seq<Cluster.Cluster>, evs: seq<Cluster.Event>, j: nat, u: NodeId)
    requires T.IsRun(ms, run, evs) && j < |run| && u in ms
    requires u in run[j].servers && AllFit(run[j].servers[u].disk)
    ensures var n := run[j].servers[u].live;
            Recovery(FileOf(run[j].servers[u].disk)) == Durable(n.term, n.vote, n.log[1..])
  {
    hide T.IsRun, Recovery, FileOf, Replay;
    T.DiskIsTruth(ms, run, evs, j, u);
    FileRecovers(run[j].servers[u].disk);
  }
}
