/** Raft storage down to the bytes, over any run: core calls, saves, reopens, and
    crashes that cut the file between two physical records of a save. */
module RaftFiles {
  import opened RaftTypes
  import opened Durability
  import opened RaftRecords
  import opened RaftStorage
  import Cluster = RaftCluster
  import T = RaftTheorems
  import D = DurableRuns
  import F = WalFormat
  import R = WalRecords
  import V = WalRecovery
  import W = WalWriter

  // ------------------------------------------------ files that hold records

  /** The file was written by sessions that were each cut cleanly, and rs are the
      records they completed. */
  ghost predicate Holds(file: Bytes, rs: seq<Rec>) {
    exists ss :: V.AllClean(ss) && V.FileAfter(ss) == file && V.AllCompleted(ss) == EncodeAll(rs)
  }

  lemma SessionSnoc(ss: seq<V.Session>, s: V.Session)
    requires V.AllClean(ss) && V.CleanCut(|V.FileAfter(ss)| % F.BLOCK, s)
    ensures var all, off := ss + [s], |V.FileAfter(ss)| % F.BLOCK;
            && V.AllClean(all) && V.FileAfter(all) == V.FileAfter(ss) + V.Kept(off, s)
            && V.AllCompleted(all) == V.AllCompleted(ss) + V.Completed(off, s.recs, s.frags)
  {
    hide V.CleanCut, V.Kept, V.Completed;
    var all := ss + [s];
    assert all[..|all| - 1] == ss && all[|all| - 1] == s;
  }

  /** What survives of a session is a prefix of its records. */
  lemma {:induction false} CompletedPrefix(off: nat, recs: seq<Bytes>, k: nat)
    requires off <= F.BLOCK
    ensures V.Completed(off, recs, k) <= recs
    ensures k == |R.SplitAll(off, recs)| ==> V.Completed(off, recs, k) == recs
    decreases |recs|
  {
    hide R.Split, F.OffsetAfter, F.Fits;
    if recs != [] {
      var f := R.Split(off, recs[0], true);
      if |f| <= k {
        CompletedPrefix(F.OffsetAfter(off, f), recs[1..], k - |f|);
        assert recs == [recs[0]] + recs[1..];
      }
    }
  }

  function Whole(off: nat, recs: seq<Bytes>): V.Session
    requires off <= F.BLOCK
  {
    V.Session(recs, |R.SplitAll(off, recs)|, 0)
  }

  lemma WholeIsClean(off: nat, recs: seq<Bytes>)
    requires off <= F.BLOCK
    ensures V.CleanCut(off, Whole(off, recs)) && V.Kept(off, Whole(off, recs)) == R.LogBytes(off, recs)
  {
    hide F.Fits, F.Lay, R.SplitAll;
    var fs := R.SplitAll(off, recs);
    assert fs[..|fs|] == fs;
  }

  lemma HoldsNothing()
    ensures Holds([], [])
  {
    assert V.AllClean([]) && V.FileAfter([]) == [] && V.AllCompleted([]) == EncodeAll([]);
  }

  /** A complete save adds its whole batch. */
  lemma HoldsSave(file: Bytes, rs: seq<Rec>, batch: seq<Rec>)
    requires Holds(file, rs)
    ensures Holds(W.Append(file, EncodeAll(batch)), rs + batch)
  {
    hide V.AllClean, V.FileAfter, V.AllCompleted, V.CleanCut, V.Kept, V.Completed, R.LogBytes, Encode;
    var off, bs := |file| % F.BLOCK, EncodeAll(batch);
    var ss :| V.AllClean(ss) && V.FileAfter(ss) == file && V.AllCompleted(ss) == EncodeAll(rs);
    WholeIsClean(off, bs);
    SessionSnoc(ss, Whole(off, bs));
    CompletedPrefix(off, bs, |R.SplitAll(off, bs)|);
    assert EncodeAll(rs + batch) == EncodeAll(rs) + bs;
  }

  /** A save cut between two physical records, or inside the trailer between them,
      adds a prefix of its batch. */
  lemma HoldsCut(file: Bytes, rs: seq<Rec>, batch: seq<Rec>, frags: nat, zeros: nat) returns (j: nat)
    requires Holds(file, rs) && V.CleanCut(|file| % F.BLOCK, V.Session(EncodeAll(batch), frags, zeros))
    ensures j <= |batch|
    ensures Holds(file + V.Kept(|file| % F.BLOCK, V.Session(EncodeAll(batch), frags, zeros)), rs + batch[..j])
  {
    hide V.AllClean, V.FileAfter, V.AllCompleted, V.CleanCut, V.Kept, V.Completed, Encode;
    var off, bs := |file| % F.BLOCK, EncodeAll(batch);
    var ss :| V.AllClean(ss) && V.FileAfter(ss) == file && V.AllCompleted(ss) == EncodeAll(rs);
    SessionSnoc(ss, V.Session(bs, frags, zeros));
    CompletedPrefix(off, bs, frags);
    j := |V.Completed(off, bs, frags)|;
    assert V.Completed(off, bs, frags) == bs[..j];
    assert EncodeAll(rs + batch[..j]) == EncodeAll(rs) + bs[..j];
  }

  /** Reading such a file back gives what replaying its records gives. */
  lemma HoldsRecovers(file: Bytes, rs: seq<Rec>)
    requires Holds(file, rs) && AllFit(rs)
    ensures Recovery(file) == Replay(rs)
  {
    hide V.AllClean, V.FileAfter, V.AllCompleted, F.ReadAll, ReplayRecords, Encode;
    var ss :| V.AllClean(ss) && V.FileAfter(ss) == file && V.AllCompleted(ss) == EncodeAll(rs);
    V.Resume(ss);
    ReplayEncoded(Durable(0, 0, []), rs);
  }

  // --------------------------------------------------------------- every run

  datatype Op = Call(call: D.Op) | Save | Reopen | Cut(frags: nat, zeros: nat)

  datatype Filed = Filed(node: Node, persisted: nat, file: Bytes)

  function Opened(c: Config, file: Bytes): Filed {
    Filed(Reopened(c, Recovery(file)), PersistedIndex(Recovery(file)), file)
  }

  ghost predicate IsCall(o: D.Op) {
    (o.Msg? || o.Clock? || o.Client? || o.Take?) && (o.Msg? && o.m.AppendEntries? ==> Follows(o.m))
  }

  /** One step; whatever a save writes fits the widths on disk. */
  ghost predicate Next(c: Config, s: Filed, op: Op, s': Filed) {
    var batch, off := Batch(s.node, s.persisted), |s.file| % F.BLOCK;
    match op
    case Call(o) => IsCall(o) && s' == s.(node := D.Do(c, D.Disked(s.node, s.persisted, []), o).node)
    case Save =>
      && AllFit(batch)
      && s' == Filed(Saved(s.node), LastIndex(s.node.log), W.Append(s.file, EncodeAll(batch)))
    case Reopen => s' == Opened(c, s.file)
    case Cut(k, z) =>
      && AllFit(batch) && V.CleanCut(off, V.Session(EncodeAll(batch), k, z))
      && s' == Opened(c, s.file + V.Kept(off, V.Session(EncodeAll(batch), k, z)))
  }

  ghost predicate IsRun(c: Config, run: seq<Filed>, ops: seq<Op>) {
    && |run| == |ops| + 1 && run[0] == Opened(c, [])
    && forall i | 0 <= i < |ops| :: Next(c, run[i], ops[i], run[i + 1])
  }

  ghost predicate Sound(s: Filed, rs: seq<Rec>) {
    Holds(s.file, rs) && AllFit(rs) && D.Sound(D.Disked(s.node, s.persisted, rs))
  }

  lemma FitsAll(a: seq<Rec>, b: seq<Rec>, k: nat)
    requires AllFit(a) && AllFit(b) && k <= |b|
    ensures AllFit(a + b) && AllFit(a + b[..k])
  {
    hide Fit;
  }

  /** Opening a file boots the node from the records the file holds. */
  lemma OpenedBoots(c: Config, file: Bytes, rs: seq<Rec>)
    requires Holds(file, rs) && AllFit(rs)
    ensures var s, b := Opened(c, file), D.Booted(c, rs);
            s.node == b.node && s.persisted == b.persisted && s.file == file
  {
    hide Holds, Recovery, Replay, AllFit;
    HoldsRecovers(file, rs);
  }

  lemma SameCall(c: Config, n: Node, p: nat, a: seq<Rec>, b: seq<Rec>, o: D.Op)
    requires IsCall(o)
    ensures D.Do(c, D.Disked(n, p, a), o).node == D.Do(c, D.Disked(n, p, b), o).node
    ensures D.Do(c, D.Disked(n, p, b), o) == D.Disked(D.Do(c, D.Disked(n, p, b), o).node, p, b)
  {
  }

  lemma NextSound(c: Config, s: Filed, rs: seq<Rec>, op: Op, s': Filed) returns (rs': seq<Rec>)
    requires Sound(s, rs) && Next(c, s, op, s')
    ensures Sound(s', rs')
  {
    hide Holds, D.Sound, D.Booted, D.Do, AllFit, Opened, Batch, V.CleanCut, V.Kept, W.Append;
    var batch, d := Batch(s.node, s.persisted), D.Disked(s.node, s.persisted, rs);
    match op
    case Call(o) =>
      rs' := rs;
      SameCall(c, s.node, s.persisted, [], rs, o);
      D.CallSound(c, d, o);
    case Save =>
      rs' := rs + batch;
      FitsAll(rs, batch, 0);
      HoldsSave(s.file, rs, batch);
      DoSave(c, d);
      D.DoSound(c, d, D.Save);
    case Reopen =>
      rs' := rs;
      OpenedBoots(c, s.file, rs);
      DoBoot(c, d, 0);
      D.DoSound(c, d, D.Reopen);
      assert D.Disked(s'.node, s'.persisted, rs') == D.Booted(c, rs');
    case Cut(k, z) =>
      var j := HoldsCut(s.file, rs, batch, k, z);
      rs' := rs + batch[..j];
      FitsAll(rs, batch, j);
      OpenedBoots(c, s.file + V.Kept(|s.file| % F.BLOCK, V.Session(EncodeAll(batch), k, z)), rs');
      DoBoot(c, d, j);
      D.DoSound(c, d, D.Crash(j));
      assert D.Disked(s'.node, s'.persisted, rs') == D.Booted(c, rs');
  }

  lemma DoSave(c: Config, d: D.Disked)
    ensures D.Do(c, d, D.Save)
            == D.Disked(Saved(d.node), LastIndex(d.node.log), d.disk + Batch(d.node, d.persisted))
  {
  }

  lemma DoBoot(c: Config, d: D.Disked, j: nat)
    requires j <= |Batch(d.node, d.persisted)|
    ensures D.Do(c, d, D.Reopen) == D.Booted(c, d.disk) && D.Booted(c, d.disk).disk == d.disk
    ensures var disk := d.disk + Batch(d.node, d.persisted)[..j];
            D.Do(c, d, D.Crash(j)) == D.Booted(c, disk) && D.Booted(c, disk).disk == disk
  {
    hide Batch, Replay, Reopened;
  }

  lemma {:induction false} RunSound(c: Config, run: seq<Filed>, ops: seq<Op>, j: nat) returns (rs: seq<Rec>)
    requires IsRun(c, run, ops) && j < |run|
    ensures Sound(run[j], rs)
  {
    hide Sound, Next, Opened;
    if j == 0 {
      rs := [];
      FirstSound(c);
    } else {
      var before := RunSound(c, run, ops, j - 1);
      assert Next(c, run[j - 1], ops[j - 1], run[j - 1 + 1]);
      rs := NextSound(c, run[j - 1], before, ops[j - 1], run[j]);
    }
  }

  lemma FirstSound(c: Config)
    ensures Sound(Opened(c, []), [])
  {
    hide Holds, Opened, D.Booted;
    HoldsNothing();
    OpenedBoots(c, [], []);
    assert Replay([]).entries == [];
    D.BootSound(c, []);
    DoBoot(c, D.Disked(D.Booted(c, []).node, 0, []), 0);
  }

  /** After every successful Save of every such run the bytes in the file bring back
      exactly the term, the vote and the log of the node. */
  lemma FileIsDurable(c: Config, run: seq<Filed>, ops: seq<Op>, j: nat)
    requires IsRun(c, run, ops) && j < |ops| && ops[j].Save?
    ensures var n := run[j].node;
            Recovery(run[j + 1].file) == Durable(n.term, n.vote, n.log[1..])
  {
    hide Holds, AllFit, Batch, Replay, Recovery, Opened, W.Append, InStep;
    var rs := RunSound(c, run, ops, j);
    var s := run[j];
    assert Next(c, run[j], ops[j], run[j + 1]);
    var batch := Batch(s.node, s.persisted);
    FitsAll(rs, batch, 0);
    HoldsSave(s.file, rs, batch);
    HoldsRecovers(run[j + 1].file, rs + batch);
    SaveRefines(s.node, s.persisted, rs);
  }

  /** The file of a server of a cluster, cut cleanly as often as it may have been,
      brings back the live term, vote and log. */
  lemma ClusterFileIsTruth(
      ms: set<NodeId>, run: seq<Cluster.Cluster>, evs: seq<Cluster.Event>, j: nat, u: NodeId, file: Bytes)
    requires T.IsRun(ms, run, evs) && j < |run| && u in ms
    requires u in run[j].servers && Holds(file, run[j].servers[u].disk) && AllFit(run[j].servers[u].disk)
    ensures var n := run[j].servers[u].live;
            Recovery(file) == Durable(n.term, n.vote, n.log[1..])
  {
    hide T.IsRun, Recovery, Holds, Replay;
    T.DiskIsTruth(ms, run, evs, j, u);
    HoldsRecovers(file, run[j].servers[u].disk);
  }
}
