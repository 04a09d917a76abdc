/** Every run of a single-node ReplicatedDB: through any writes and clean reopens
    the table is the fold of all commands ever written. */
module ReplicatedDbRuns {
  import opened RaftTypes
  import opened Durability
  import opened RaftStorage
  import opened ReplicatedDb
  import Spec = RaftSpec
  import Rec = RaftRecords
  import K = Commands
  import C = Coding
  import W = WalWriter

  datatype Op = Write(command: Command) | Reopen

  function Do(id: NodeId, s: Store, op: Op): Store {
    match op
    case Write(c) => Proposed(s, c)
    case Reopen => Opened(s.file, id, [id])
  }

  /** From an empty directory. */
  function Run(id: NodeId, ops: seq<Op>): Store {
    if ops == [] then Opened([], id, [id]) else Do(id, Run(id, ops[..|ops| - 1]), ops[|ops| - 1])
  }

  function Writes(ops: seq<Op>): seq<Command> {
    if ops == [] then []
    else
      Writes(ops[..|ops| - 1]) + (if ops[|ops| - 1].Write? then [ops[|ops| - 1].command] else [])
  }

  const MAX64: nat := Rec.TWO32 * Rec.TWO32

  // -------------------------------------------------------------- invariant

  /** Every field of the node fits its width on disk; top bounds term and index. */
  ghost predicate Narrow(n: Node, top: nat) {
    && n.term <= top && top + 1 < MAX64 && LastIndex(n.log) <= top && n.vote < MAX64
    && forall i | 0 < i < |n.log| :: n.log[i].term <= top && n.log[i].index <= top && |n.log[i].data| < Rec.TWO32
  }

  /** The file holds rs and replays to what the node knows. */
  ghost predicate Backed(s: Store, rs: seq<Durability.Rec>) {
    && s.file == FileOf(rs) && AllFit(rs)
    && InStep(s.node, s.persisted, Replay(rs))
  }

  ghost predicate AtRest(id: NodeId, s: Store, rs: seq<Durability.Rec>, ps: seq<Bytes>, top: nat) {
    var n := s.node;
    && Backed(s, rs) && Replay(rs) == Durable(n.term, n.vote, n.log[1..])
    && n.config == ConfigFor(id, [id]) && n.role == Leader && Narrow(n, top)
    && Payloads(n.log[1..]) == ps && s.applied == n.commit <= LastIndex(n.log)
    && s.table == K.ApplyPayloads(map[], ps)
  }

  lemma BatchFits(n: Node, persisted: nat, top: nat)
    requires Narrow(n, top) && n.stable <= persisted && n.stable <= LastIndex(n.log)
    ensures AllFit(Batch(n, persisted))
  {
    var es := Spec.Suffix(n.log, Kept(n, persisted) + 1);
    forall r | r in Batch(n, persisted) ensures Rec.Fit(r) {
      if r in EntryPart(n, persisted) {
        var i :| 0 <= i < |es| && r == LogRec(es[i]);
        assert es[i] == n.log[Kept(n, persisted) + 1 + i];
      }
    }
  }

  /** Saving backs the node's new state. */
  lemma SyncBacks(s: Store, rs: seq<Durability.Rec>, top: nat)
    requires Backed(s, rs) && Narrow(s.node, top)
    ensures var all := rs + Batch(s.node, s.persisted);
            && Backed(Synced(s), all)
            && Replay(all) == Durable(s.node.term, s.node.vote, s.node.log[1..])
  {
    hide FileOf, Batch, Replay, W.Append, Rec.EncodeAll, Rec.Fit, K.ApplyPayloads;
    BatchFits(s.node, s.persisted, top);
    FileGrows(rs, Batch(s.node, s.persisted));
    SaveRefines(s.node, s.persisted, rs);
  }

  lemma NarrowSaved(n: Node, top: nat)
    requires Narrow(n, top)
    ensures Narrow(Saved(n), top)
  {
  }

  lemma SyncRests(id: NodeId, s: Store, rs: seq<Durability.Rec>, ps: seq<Bytes>, top: nat)
    requires Backed(s, rs) && Narrow(s.node, top)
    requires s.node.config == ConfigFor(id, [id]) && s.node.role == Leader
    requires Payloads(s.node.log[1..]) == ps && s.node.commit <= LastIndex(s.node.log)
    requires AppliedTable(s.table, s.node.log, s.applied, s.node.commit) == K.ApplyPayloads(map[], ps)
    ensures AtRest(id, Synced(s), rs + Batch(s.node, s.persisted), ps, top)
  {
    hide Backed, Narrow, Batch, Replay, W.Append, Rec.EncodeAll, K.ApplyPayloads, Payloads, Between;
    SyncBacks(s, rs, top);
    NarrowSaved(s.node, top);
  }

  // -------------------------------------------------------------- opening

  ghost predicate NarrowLog(d: Durable, top: nat) {
    && d.term <= top && |d.entries| <= top
    && forall i | 0 <= i < |d.entries| ::
         d.entries[i].term <= top && |d.entries[i].data| < Rec.TWO32
  }

  /** The freshly recovered node, after the tick that elects it. */
  lemma OpenBacks(id: NodeId, rs: seq<Durability.Rec>, top: nat)
    requires id < MAX64 && top + 2 < MAX64
    requires AllFit(rs) && Contiguous(Replay(rs).entries) && NarrowLog(Replay(rs), top)
    ensures var d, s := Replay(rs), Rebuilt(FileOf(rs), id, [id]);
            var n := Spec.Tick(s.node);
            && Backed(s.(node := n), rs) && Narrow(n, top + 1)
            && n.config == ConfigFor(id, [id]) && n.role == Leader
            && n.log[1..] == d.entries && n.commit == 0
            && s.table == K.ApplyPayloads(map[], Payloads(d.entries)) && s.applied == |d.entries|
  {
    hide FileOf, Recovery, Replay, Spec.Tick, K.ApplyPayloads, Rec.Fit;
    var d := Replay(rs);
    FileRecovers(rs);
    var c := ConfigFor(id, [id]);
    ReopenInStep(c, d);
    var n := Reopened(c, d);
    Elects(n);
    assert n.log[1..] == d.entries;
    forall i | 0 < i < |n.log| ensures n.log[i] == d.entries[i - 1] {}
  }

  lemma OpenRests(id: NodeId, rs: seq<Durability.Rec>, top: nat) returns (rs': seq<Durability.Rec>)
    requires id < MAX64 && top + 2 < MAX64
    requires AllFit(rs) && Contiguous(Replay(rs).entries) && NarrowLog(Replay(rs), top)
    ensures AtRest(id, Opened(FileOf(rs), id, [id]), rs', Payloads(Replay(rs).entries), top + 1)
  {
    hide FileOf, Recovery, Replay, Spec.Tick, K.ApplyPayloads, Narrow, Backed, AtRest, AllFit, Synced, Rebuilt;
    var d, s := Replay(rs), Rebuilt(FileOf(rs), id, [id]);
    OpenBacks(id, rs, top);
    var s1 := s.(node := Spec.Tick(s.node));
    NothingBetween(s1.node.log, s1.applied);
    K.ApplyNone(s1.table);
    rs' := rs + Batch(s1.node, s1.persisted);
    SyncRests(id, s1, rs, Payloads(d.entries), top + 1);
  }

  lemma NothingBetween(log: Log, a: nat)
    ensures Payloads(Between(log, a, 0)) == []
  {
  }

  lemma FirstOpen(id: NodeId) returns (rs: seq<Durability.Rec>)
    requires id < MAX64
    ensures AtRest(id, Opened([], id, [id]), rs, [], 1)
  {
    hide AtRest, Opened;
    EmptyFile();
    assert Replay([]) == Durable(0, 0, []);
    rs := OpenRests(id, [], 0);
    assert Payloads([]) == [];
  }

  lemma ReopenRests(
      id: NodeId, s: Store, rs: seq<Durability.Rec>, ps: seq<Bytes>, top: nat) returns (rs': seq<Durability.Rec>)
    requires AtRest(id, s, rs, ps, top) && id < MAX64 && top + 2 < MAX64
    ensures AtRest(id, Opened(s.file, id, [id]), rs', ps, top + 1)
  {
    hide Opened, FileOf, Replay, AllFit, K.ApplyPayloads;
    var n := s.node;
    forall i | 0 <= i < |n.log[1..]| ensures n.log[1..][i] == n.log[i + 1] {}
    rs' := OpenRests(id, rs, top);
  }

  // -------------------------------------------------------------- writing

  /** A lone leader commits what it proposes at once. */
  lemma ProposeCommits(id: NodeId, n: Node, data: Bytes)
    requires n.config == ConfigFor(id, [id]) && n.role == Leader && n.commit <= LastIndex(n.log)
    ensures var n' := Spec.Propose(n, data);
            && n' == n.(log := n.log + [Entry(n.term, LastIndex(n.log) + 1, data)], commit := LastIndex(n.log) + 1)
  {
    hide Spec.Holders;
    var n1 := n.(log := n.log + [Entry(n.term, LastIndex(n.log) + 1, data)]);
    assert Spec.Committable(n1, LastIndex(n1.log));
  }

  lemma ProposeBacks(s: Store, rs: seq<Durability.Rec>, top: nat, e: Entry)
    requires Backed(s, rs) && Narrow(s.node, top) && top + 2 < MAX64
    requires e.term == s.node.term && e.index == LastIndex(s.node.log) + 1 && |e.data| < Rec.TWO32
    ensures var n := s.node.(log := s.node.log + [e], commit := e.index);
            Backed(s.(node := n), rs) && Narrow(n, top + 1)
  {
    hide FileOf, Replay, AllFit;
    var n := s.node;
    var l := n.log + [e];
    assert l[1..n.stable + 1] == n.log[1..n.stable + 1];
    forall i | 0 < i < |l| ensures l[i] == if i < |n.log| then n.log[i] else e {}
  }

  /** Whatever part of the log was applied before is applied again, and then the
      new command: the result is the fold of everything. */
  lemma ReapplyWrite(ps: seq<Bytes>, applied: nat, data: Bytes)
    requires applied <= |ps|
    ensures K.ApplyPayloads(K.ApplyPayloads(map[], ps), ps[applied..] + [data]) == K.ApplyPayloads(map[], ps + [data])
  {
    hide K.ApplyPayloads;
    K.ReapplySuffix(ps[..applied], ps[applied..], [data]);
    assert ps[..applied] + ps[applied..] == ps;
  }

  lemma PayloadsBetween(log: Log, e: Entry, applied: nat)
    requires applied <= LastIndex(log)
    ensures Payloads((log + [e])[1..]) == Payloads(log[1..]) + [e.data]
    ensures Payloads(Between(log + [e], applied, |log|)) == Payloads(log[1..])[applied..] + [e.data]
  {
    var l := log + [e];
    assert l[1..] == log[1..] + [e];
    assert Between(l, applied, |log|) == log[1..][applied..] + [e];
  }

  lemma WriteRests(
      id: NodeId, s: Store, rs: seq<Durability.Rec>, ps: seq<Bytes>, top: nat, c: Command)
    returns (rs': seq<Durability.Rec>)
    requires AtRest(id, s, rs, ps, top) && top + 2 < MAX64 && |K.Encode(c)| < Rec.TWO32
    ensures AtRest(id, Proposed(s, c), rs', ps + [K.Encode(c)], top + 1)
    ensures Proposed(s, c).applied == |ps| + 1
  {
    hide Backed, Narrow, Replay, K.ApplyPayloads, K.Encode, Payloads, Between, Batch, W.Append, Rec.EncodeAll;
    hide Spec.Propose;
    var n, data := s.node, K.Encode(c);
    var e := Entry(n.term, LastIndex(n.log) + 1, data);
    ProposeCommits(id, n, data);
    ProposeBacks(s, rs, top, e);
    PayloadsBetween(n.log, e, s.applied);
    ReapplyWrite(ps, s.applied, data);
    var s1 := s.(node := Spec.Propose(n, data));
    rs' := rs + Batch(s1.node, s1.persisted);
    SyncRests(id, s1, rs, ps + [data], top + 1);
  }

  // -------------------------------------------------------------- every run

  lemma {:induction false} RunRests(id: NodeId, ops: seq<Op>) returns (rs: seq<Durability.Rec>)
    requires id < MAX64 && |ops| + 2 < MAX64
    requires forall c | c in Writes(ops) :: |K.Encode(c)| < Rec.TWO32
    ensures AtRest(id, Run(id, ops), rs, K.EncodeAll(Writes(ops)), |ops| + 1)
    decreases |ops|
  {
    hide AtRest, Opened, Proposed, K.Encode;
    if ops == [] {
      rs := FirstOpen(id);
      assert K.EncodeAll([]) == [];
    } else {
      var init, op := ops[..|ops| - 1], ops[|ops| - 1];
      assert Writes(init) <= Writes(ops);
      var before := RunRests(id, init);
      var ps := K.EncodeAll(Writes(init));
      if op.Write? {
        assert op.command in Writes(ops);
        rs := WriteRests(id, Run(id, init), before, ps, |ops|, op.command);
        assert K.EncodeAll(Writes(ops)) == ps + [K.Encode(op.command)];
      } else {
        assert Writes(ops) == Writes(init);
        rs := ReopenRests(id, Run(id, init), before, ps, |ops|);
      }
    }
  }

  lemma SmallEncoding(c: Command)
    requires |K.Encode(c)| < Rec.TWO32
    ensures K.Small(c)
  {
  }

  /** A single-node ReplicatedDB is a durable map: after any writes and clean
      reopens it leads, and its table is the fold of every command written. */
  lemma DurableMap(id: NodeId, ops: seq<Op>)
    requires id < MAX64 && |ops| + 3 < MAX64
    requires forall c | c in Writes(ops) :: |K.Encode(c)| < Rec.TWO32
    ensures Run(id, ops).node.role == Leader
    ensures Run(id, ops).table == K.ApplyAll(map[], Writes(ops))
    ensures Opened(Run(id, ops).file, id, [id]).table == Run(id, ops).table
  {
    hide Run, Writes, K.Encode, Opened, Backed, Narrow, Replay, K.ApplyPayloads, Payloads;
    var rs := RunRests(id, ops);
    forall c | c in Writes(ops) ensures K.Small(c) { SmallEncoding(c); }
    K.ApplyEncoded(map[], Writes(ops));
    var rs' := ReopenRests(id, Run(id, ops), rs, K.EncodeAll(Writes(ops)), |ops| + 1);
  }

  /** The applied index is not monotone: every reopen sets it back to 0, and the
      next write brings it to the number of commands. */
  lemma AppliedFallsBack(id: NodeId, ops: seq<Op>, c: Command)
    requires id < MAX64 && |ops| + 4 < MAX64
    requires forall x | x in Writes(ops) + [c] :: |K.Encode(x)| < Rec.TWO32
    ensures Run(id, ops + [Reopen]).applied == 0
    ensures Run(id, ops + [Reopen, Write(c)]).applied == |Writes(ops)| + 1
  {
    hide K.Encode, AtRest, Opened, Proposed;
    var again := ops + [Reopen];
    assert again[..|again| - 1] == ops && Writes(again) == Writes(ops);
    var rs := RunRests(id, again);
    var all := ops + [Reopen, Write(c)];
    assert all[..|all| - 1] == again;
    var rs' := WriteRests(id, Run(id, again), rs, K.EncodeAll(Writes(again)), |again| + 1, c);
    OpenedApplied(Run(id, ops).file, id);
  }

  lemma OpenedApplied(file: Bytes, id: NodeId)
    ensures Opened(file, id, [id]).applied == 0
  {
    hide Recovery, Spec.Tick, K.ApplyPayloads, W.Append, Rec.EncodeAll, Batch;
    Elects(Rebuilt(file, id, [id]).node);
  }

  /** What Get answers after any writes and clean reopens of a single node. */
  lemma GetAfterRun(id: NodeId, ops: seq<Op>, k: Bytes, v: Bytes)
    requires id < MAX64 && |ops| + 3 < MAX64
    requires forall c | c in Writes(ops) :: |K.Encode(c)| < Rec.TWO32
    ensures K.Lookup(Run(id, ops).table, k) == C.Some(v) <==> K.LastWrite(Writes(ops), k, v)
  {
    hide Run, Writes, K.Encode, K.LastWrite, Opened;
    DurableMap(id, ops);
    K.AppliedLookup(Writes(ops), k, v);
  }
}
