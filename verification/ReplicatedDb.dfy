/** The key-value store on top of Raft: commands are proposed, persisted and then
    applied to a table; opening rebuilds the table from the recovered log. */
module ReplicatedDb {
  import opened RaftTypes
  import opened Durability
  import opened RaftCore
  import opened RaftStorage
  import Spec = RaftSpec
  import Rec = RaftRecords
  import K = Commands
  import W = WalWriter
  import C = Coding

  type Table = K.Table
  type Command = K.Command

  datatype Store = Store(node: Node, persisted: nat, file: Bytes, table: Table, applied: nat)

  function Payloads(es: seq<Entry>): (ps: seq<Bytes>)
    ensures |ps| == |es|
  {
    seq(|es|, i requires 0 <= i < |es| => es[i].data)
  }

  /** The entries after index a, up to index b. */
  function Between(log: Log, a: nat, b: nat): seq<Entry> {
    if a <= b < |log| then log[a + 1..b + 1] else []
  }

  /** The table once the entries after index a, up to index b, have been applied. */
  function AppliedTable(t: Table, log: Log, a: nat, b: nat): Table {
    K.ApplyPayloads(t, Payloads(Between(log, a, b)))
  }

  function ConfigFor(id: NodeId, peers: seq<NodeId>): Config { Config(id, peers, 1, 1) }

  /** Save, then apply what is committed and not yet applied. */
  function Synced(s: Store): Store {
    Store(Saved(s.node), LastIndex(s.node.log), W.Append(s.file, Rec.EncodeAll(Batch(s.node, s.persisted))),
          AppliedTable(s.table, s.node.log, s.applied, s.node.commit), s.node.commit)
  }

  /** The node and the table as recovered, before any election. */
  function Rebuilt(file: Bytes, id: NodeId, peers: seq<NodeId>): Store {
    var d := Recovery(file);
    Store(Reopened(ConfigFor(id, peers), d), PersistedIndex(d), file,
          K.ApplyPayloads(map[], Payloads(d.entries)), PersistedIndex(d))
  }

  function Opened(file: Bytes, id: NodeId, peers: seq<NodeId>): Store {
    var s := Rebuilt(file, id, peers);
    if |peers| == 1 then Synced(s.(node := Spec.Tick(s.node))) else s
  }

  function Proposed(s: Store, c: Command): Store {
    if s.node.role != Leader then s else Synced(s.(node := Spec.Propose(s.node, K.Encode(c))))
  }

  class ReplicatedDB {
    var raft: Raft
    var storage: Storage
    var table: Table
    var applied: nat

    ghost predicate Valid()
      reads this, storage, storage.writer, storage.writer.table, storage.writer.typeCrc
    {
      storage.Valid()
    }

    ghost function View(): Store
      reads this, raft, storage, storage.writer
    {
      Store(raft.State(), storage.persisted, storage.writer.dest, table, applied)
    }

    constructor (r: Raft, s: Storage)
      requires s.Valid()
      ensures Valid() && raft == r && storage == s && table == map[] && applied == 0
    {
      raft, storage, table, applied := r, s, map[], 0;
    }

    /** Recovers a node; a single-node cluster elects itself at once. */
    static method Open(contents: Bytes, id: NodeId, peers: seq<NodeId>) returns (db: ReplicatedDB)
      ensures db.Valid() && db.View() == Opened(contents, id, peers)
    {
      hide Recovery, K.ApplyPayloads, Synced, Spec.Tick, W.Writer.Valid;
      var storage := new Storage(contents);
      var raft := new Raft(ConfigFor(id, peers));
      raft.Restore(storage.recoveredTerm, storage.recoveredVote, storage.recoveredEntries);
      db := new ReplicatedDB(raft, storage);
      var entries := storage.recoveredEntries;
      db.Rebuild(entries);
      db.applied := if entries == [] then 0 else entries[|entries| - 1].index;
      assert db.View() == Rebuilt(contents, id, peers);
      if |peers| == 1 {
        db.ElectSelf();
      }
    }

    /** Ticks until this node leads, then persists the new term and vote. */
    method ElectSelf()
      requires Valid() && raft.commit <= LastIndex(raft.log)
      requires raft.role == Follower && raft.electionElapsed == 0
      requires raft.config.electionTimeout == 1 && |raft.config.peers| == 1
      modifies this`table, this`applied, raft, storage`persisted, storage.writer`dest, storage.writer`blockOffset
      ensures Valid() && View() == Synced(old(View()).(node := Spec.Tick(old(raft.State()))))
    {
      hide Synced, Spec.Tick, W.Writer.Valid;
      Elects(raft.State());
      while raft.role != Leader
        invariant raft.State() == if raft.role == Leader then Spec.Tick(old(raft.State())) else old(raft.State())
        invariant Valid() && View() == old(View()).(node := raft.State())
        decreases raft.role != Leader
      {
        raft.Tick();
      }
      Sync();
    }

    method Rebuild(entries: seq<Entry>)
      modifies this`table
      ensures table == K.ApplyPayloads(old(table), Payloads(entries))
    {
      hide K.ApplyPayload, K.ApplyPayloads;
      K.ApplyNone(table);
      for k := 0 to |entries|
        invariant table == K.ApplyPayloads(old(table), Payloads(entries[..k]))
      {
        ApplyEntry(entries[k]);
        K.ApplySnoc(old(table), Payloads(entries[..k]), entries[k].data);
        assert Payloads(entries[..k + 1]) == Payloads(entries[..k]) + [entries[k].data];
      }
      assert entries[..|entries|] == entries;
    }

    method ApplyEntry(e: Entry)
      modifies this`table
      ensures table == K.ApplyPayload(old(table), e.data)
    {
      hide K.Decode;
      var ok, tag, key, value := K.DecodeRecord(e.data);
      if ok {
        if tag == K.PUT_TAG {
          table := table[key := value];
        } else {
          table := table - {key};
        }
      }
    }

    /** Refused unless this node leads. */
    method Write(put: bool, key: Bytes, value: Bytes) returns (ok: bool)
      requires Valid() && raft.commit <= LastIndex(raft.log)
      modifies this`table, this`applied, raft, storage`persisted, storage.writer`dest, storage.writer`blockOffset
      ensures Valid() && ok == (old(raft.role) == Leader)
      ensures View() == Proposed(old(View()), if put then K.Put(key, value) else K.Delete(key))
    {
      hide Synced, K.Encode, Spec.CommitPoint, W.Writer.Valid;
      if raft.role != Leader {
        return false;
      }
      var command := K.EncodeRecord(put, key, value);
      var accepted := raft.Propose(command);
      Sync();
      ok := true;
    }

    method Sync()
      requires Valid() && raft.commit <= LastIndex(raft.log)
      modifies this`table, this`applied, raft`dirty, raft`stable
      modifies storage`persisted, storage.writer`dest, storage.writer`blockOffset
      ensures Valid() && View() == Synced(old(View()))
    {
      hide K.ApplyPayloads, W.Append, Rec.EncodeAll, Batch, W.Writer.Valid;
      storage.Save(raft);
      ApplyCommitted();
    }

    method ApplyCommitted()
      requires raft.commit <= LastIndex(raft.log)
      modifies this`table, this`applied
      ensures table == AppliedTable(old(table), raft.log, old(applied), raft.commit)
      ensures applied == raft.commit
    {
      hide K.ApplyPayload, K.ApplyPayloads;
      K.ApplyNone(table);
      var i := applied + 1;
      ghost var es: seq<Entry> := [];
      while i <= raft.commit
        invariant applied + 1 <= i && (i <= raft.commit + 1 || i == applied + 1) && applied == old(applied)
        invariant es == if i <= raft.commit + 1 then raft.log[applied + 1..i] else []
        invariant table == K.ApplyPayloads(old(table), Payloads(es))
      {
        ApplyEntry(raft.log[i]);
        K.ApplySnoc(old(table), Payloads(es), raft.log[i].data);
        assert Payloads(es + [raft.log[i]]) == Payloads(es) + [raft.log[i].data];
        es := es + [raft.log[i]];
        i := i + 1;
      }
      assert es == Between(raft.log, old(applied), raft.commit);
      applied := raft.commit;
    }

    method Get(key: Bytes) returns (value: C.Option<Bytes>)
      ensures value == K.Lookup(View().table, key)
    {
      if key !in table {
        return C.None;
      }
      return C.Some(table[key]);
    }
  }

  /** A lone node wins its election at the first tick and keeps its log. */
  lemma Elects(n: Node)
    requires n.role == Follower && n.electionElapsed == 0 && n.config.electionTimeout == 1 && |n.config.peers| == 1
    ensures var n' := Spec.Tick(n);
            && n'.role == Leader && n'.config == n.config && n'.term == n.term + 1 && n'.vote == n.config.id && n'.dirty
            && n'.log == n.log && n'.commit == n.commit && n'.stable == n.stable
  {
    hide Spec.Others, Spec.PeerMap, Spec.AppendMsgs;
  }
}
