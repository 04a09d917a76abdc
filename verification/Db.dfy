/** The single-node store: a table in memory, every change of which is logged
    first, rebuilt from the log when the store is opened. */
module Db {
  import opened Coding
  import opened Commands
  import opened WalFormat
  import opened WalRecords
  import opened WalWriter
  import opened WalReader
  import WalDirtyCut

  datatype State = State(table: Table, file: Bytes)

  /** The store that opening a log file gives. */
  function Opened(file: Bytes): State {
    State(ApplyPayloads(map[], ReadAll(file).records), file)
  }

  function Written(s: State, c: Command): State {
    State(Commands.Apply(s.table, c), Append(s.file, [Encode(c)]))
  }

  class DBImpl {
    var table: Table
    var writer: Writer

    ghost predicate Valid()
      reads this, writer, writer.table, writer.typeCrc
    {
      writer.Valid()
    }

    ghost function View(): State
      reads this, writer
    {
      State(table, writer.dest)
    }

    /** Replays the log, then resumes it. */
    constructor (wal: Bytes)
      ensures Valid() && View() == Opened(wal)
      ensures fresh(writer) && fresh(writer.table) && fresh(writer.typeCrc)
    {
      hide ReadAll, ApplyPayloads;
      table := map[];
      writer := new Writer(wal);
      new;
      ReplayWal(wal);
    }

    method ReplayWal(wal: Bytes)
      modifies this`table
      ensures table == ApplyPayloads(old(table), ReadAll(wal).records)
    {
      hide Assemble, ParseFile, ParseBlock, ApplyPayload, ApplyPayloads;
      ApplyNone(table);
      var reader := new Reader(wal);
      ghost var all, done := ReadAll(wal).records, [];
      assert all == done + Assemble(reader.Pending(), false, []).records;
      var ok, record := reader.ReadRecord();
      while ok
        invariant table == ApplyPayloads(old(table), done)
        invariant ok ==> all == done + [record] + Assemble(reader.Pending(), false, []).records
        invariant !ok ==> all == done
        decreases ok, |reader.Pending()|
      {
        ReplayRecord(record);
        ApplySnoc(old(table), done, record);
        done := done + [record];
        ok, record := reader.ReadRecord();
      }
    }

    method ReplayRecord(record: Bytes)
      modifies this`table
      ensures table == ApplyPayload(old(table), record)
    {
      hide Decode;
      var ok, tag, key, value := DecodeRecord(record);
      if ok {
        Apply(tag == PUT_TAG, key, value);
      }
    }

    method Apply(put: bool, key: Bytes, value: Bytes)
      modifies this`table
      ensures table == Commands.Apply(old(table), if put then Put(key, value) else Delete(key))
    {
      if put {
        table := table[key := value];
      } else {
        table := table - {key};
      }
    }

    /** The log comes first; only then does the table change. */
    method Write(put: bool, key: Bytes, value: Bytes)
      requires Valid()
      modifies this`table, writer`dest, writer`blockOffset
      ensures Valid() && View() == Written(old(View()), if put then Put(key, value) else Delete(key))
    {
      hide Encode, Append;
      var record := EncodeRecord(put, key, value);
      writer.AddRecord(record);
      Apply(put, key, value);
    }

    method Get(key: Bytes) returns (value: Option<Bytes>)
      ensures value == Lookup(View().table, key)
    {
      if key !in table {
        return None;
      }
      return Some(table[key]);
    }
  }

  // --------------------------------------------------------------- every run

  datatype Op = Write(command: Command) | Reopen

  function Do(s: State, op: Op): State {
    match op
    case Write(c) => Written(s, c)
    case Reopen => Opened(s.file)
  }

  /** From an empty directory, through any writes and clean reopens. */
  function Run(ops: seq<Op>): State {
    if ops == [] then Opened([]) else Do(Run(ops[..|ops| - 1]), ops[|ops| - 1])
  }

  function Writes(ops: seq<Op>): seq<Command> {
    if ops == [] then []
    else
      Writes(ops[..|ops| - 1]) + (if ops[|ops| - 1].Write? then [ops[|ops| - 1].command] else [])
  }

  /** The log holds every write since the beginning, as if written in one go. */
  lemma {:induction false} RunLogs(ops: seq<Op>)
    ensures Run(ops).file == LogBytes(0, EncodeAll(Writes(ops)))
    decreases |ops|
  {
    hide LogBytes, Append, Encode, ReadAll, ApplyPayloads;
    if ops == [] {
      AppendNothing([]);
      AppendFirst([]);
    } else {
      var init := ops[..|ops| - 1];
      RunLogs(init);
      if ops[|ops| - 1].Write? {
        var ws, c := EncodeAll(Writes(init)), ops[|ops| - 1].command;
        AppendFirst(ws);
        AppendTwice([], ws, [Encode(c)]);
        AppendFirst(ws + [Encode(c)]);
        assert EncodeAll(Writes(init) + [c]) == ws + [Encode(c)];
      } else {
        assert Writes(ops) == Writes(init);
      }
    }
  }

  lemma EmptyLog()
    ensures Opened([]).table == map[]
  {
    hide LogBytes, ReadAll;
    AppendNothing([]);
    AppendFirst([]);
    RoundTrip([]);
  }

  lemma OpenedLog(cs: seq<Command>)
    requires forall c | c in cs :: Small(c)
    ensures Opened(LogBytes(0, EncodeAll(cs))).table == ApplyAll(map[], cs)
  {
    hide LogBytes, ReadAll, ApplyPayloads;
    RoundTrip(EncodeAll(cs));
    ApplyEncoded(map[], cs);
  }

  /** Recovery agrees with the live table: after any writes and clean reopens the
      table is the fold of all writes, and so is the one the log rebuilds. */
  lemma {:induction false} RecoveryAgrees(ops: seq<Op>)
    requires forall c | c in Writes(ops) :: Small(c)
    ensures Run(ops).table == ApplyAll(map[], Writes(ops))
    ensures Opened(Run(ops).file).table == Run(ops).table
    decreases |ops|
  {
    hide Opened, Append, Encode, LogBytes, Small;
    RunLogs(ops);
    OpenedLog(Writes(ops));
    if ops == [] {
      EmptyLog();
    } else {
      var init := ops[..|ops| - 1];
      assert Writes(init) <= Writes(ops);
      RecoveryAgrees(init);
      if ops[|ops| - 1].Write? {
        assert Writes(ops)[..|Writes(ops)| - 1] == Writes(init);
        assert Run(ops) == Written(Run(init), ops[|ops| - 1].command);
      } else {
        assert Writes(ops) == Writes(init);
        assert Run(ops) == Opened(Run(init).file);
      }
    }
  }

  /** Cutting the log at any byte loses only the writes that were not yet wholly
      in it: what is rebuilt is the table after the r writes before the cut. */
  lemma CrashKeepsPrefix(ops: seq<Op>, n: nat, r: nat)
    requires forall c | c in Writes(ops) :: Small(c)
    requires n <= |Run(ops).file| && r <= |Writes(ops)|
    requires |LogBytes(0, EncodeAll(Writes(ops)[..r]))| <= n
    requires r < |Writes(ops)| ==> n < |LogBytes(0, EncodeAll(Writes(ops)[..r + 1]))|
    ensures Opened(Run(ops).file[..n]).table == ApplyAll(map[], Writes(ops)[..r])
  {
    hide LogBytes, ReadAll, ApplyPayloads, Encode, Run, Writes, Small;
    var ws := Writes(ops);
    RunLogs(ops);
    assert EncodeAll(ws)[..r] == EncodeAll(ws[..r]);
    if r < |ws| {
      assert EncodeAll(ws)[..r + 1] == EncodeAll(ws[..r + 1]);
    }
    TornTail(EncodeAll(ws), n, r);
    ApplyEncoded(map[], ws[..r]);
  }

  /** After a crash that tore a physical record, an acknowledged write can be lost:
      the store opened on the torn log takes the command and shows it, but the next
      store opened on that log does not have it. */
  lemma LostCommand(first: Command, c: Command)
    requires Small(first) && Small(c) && HEADER + |Encode(c)| < |Encode(first)| <= BLOCK - HEADER
    ensures HEADER <= |Run([Write(first)]).file|
    ensures var torn := Run([Write(first)]).file[..HEADER];
            var s := Written(Opened(torn), c);
            && s.table == Commands.Apply(map[], c)
            && Opened(s.file).table == map[]
  {
    hide LogBytes, ReadAll, Encode, Run;
    RunLogs([Write(first)]);
    assert EncodeAll(Writes([Write(first)])) == [Encode(first)] by {
      assert [Write(first)][..0] == [];
      assert Writes([Write(first)]) == [first];
    }
    WalDirtyCut.LostWrite(Encode(first), Encode(c));
    var torn := LogBytes(0, [Encode(first)])[..HEADER];
    ApplyNone(map[]);
  }

  /** What Get answers after any writes and clean reopens: the value of the last put
      of the key, unless a later put or delete of the key follows it. */
  lemma GetAfterRun(ops: seq<Op>, k: Bytes, v: Bytes)
    requires forall c | c in Writes(ops) :: Small(c)
    ensures Lookup(Run(ops).table, k) == Some(v) <==> LastWrite(Writes(ops), k, v)
  {
    hide Run, Writes, Small, LastWrite, Opened;
    RecoveryAgrees(ops);
    AppliedLookup(Writes(ops), k, v);
  }
}
