/** The record stream of RaftStorage: an append-only encoding of a log that is
    also truncated, and its replay. */
module Durability {
  import opened RaftTypes
  import Spec = RaftSpec

  datatype Rec = HardState(term: Term, vote: NodeId) | LogRec(entry: Entry) | Truncate(from: nat)

  /** What replay recovers. */
  datatype Durable = Durable(term: Term, vote: NodeId, entries: seq<Entry>)

  /** Drops entries from the back while their index is at least from. */
  function Pop(es: seq<Entry>, from: nat): seq<Entry> {
    if es != [] && es[|es| - 1].index >= from then Pop(es[..|es| - 1], from) else es
  }

  function ReplayOne(d: Durable, r: Rec): Durable {
    match r
    case HardState(t, v) => d.(term := t, vote := v)
    case LogRec(e) => d.(entries := d.entries + [e])
    case Truncate(from) => d.(entries := Pop(d.entries, from))
  }

  function ReplayFrom(d: Durable, rs: seq<Rec>): Durable {
    if rs == [] then d else ReplayOne(ReplayFrom(d, rs[..|rs| - 1]), rs[|rs| - 1])
  }

  function Replay(rs: seq<Rec>): Durable { ReplayFrom(Durable(0, 0, []), rs) }

  /** The highest index Save need not write again. */
  function Kept(n: Node, persisted: nat): nat {
    if n.stable < persisted then n.stable else persisted
  }

  function HardPart(n: Node): seq<Rec> {
    if n.dirty then [HardState(n.term, n.vote)] else []
  }

  function TruncatePart(n: Node, persisted: nat): seq<Rec> {
    if n.stable < persisted then [Truncate(n.stable + 1)] else []
  }

  function EntryPart(n: Node, persisted: nat): seq<Rec> {
    LogRecs(Spec.Suffix(n.log, Kept(n, persisted) + 1))
  }

  function LogRecs(es: seq<Entry>): (rs: seq<Rec>)
    ensures |rs| == |es|
  {
    seq(|es|, i requires 0 <= i < |es| => LogRec(es[i]))
  }

  /** The records one Save appends. */
  function Batch(n: Node, persisted: nat): seq<Rec> {
    HardPart(n) + TruncatePart(n, persisted) + EntryPart(n, persisted)
  }

  function Saved(n: Node): Node {
    n.(dirty := false, stable := LastIndex(n.log))
  }

  /** Raft::Restore on a fresh node, fed with what replay recovered. */
  function Reopened(c: Config, d: Durable): Node {
    Spec.Restore(Spec.Fresh(c), d.term, d.vote, d.entries)
  }

  function PersistedIndex(d: Durable): nat {
    if d.entries == [] then 0 else d.entries[|d.entries| - 1].index
  }

  // ------------------------------------------------------------- invariant

  ghost predicate Contiguous(es: seq<Entry>) {
    forall i | 0 <= i < |es| :: es[i].index == i + 1
  }

  ghost predicate Indexed(l: Log) {
    l[0] == SENTINEL && forall i | 0 < i < |l| :: l[i].index == i
  }

  /** What ties the live node to the record stream between two saves: the first
      stable entries are the recorded ones, and a clean flag means the hard state
      is recorded. */
  ghost predicate InStep(n: Node, persisted: nat, d: Durable) {
    && Indexed(n.log)
    && Contiguous(d.entries) && |d.entries| == persisted
    && n.stable <= persisted && n.stable <= LastIndex(n.log)
    && n.log[1..n.stable + 1] == d.entries[..n.stable]
    && (!n.dirty ==> d.term == n.term && d.vote == n.vote)
  }

  lemma {:induction false} ReplayAppend(d: Durable, a: seq<Rec>, b: seq<Rec>)
    ensures ReplayFrom(d, a + b) == ReplayFrom(ReplayFrom(d, a), b)
    decreases |b|
  {
    if b == [] {
      assert a + b == a;
    } else {
      assert (a + b)[..|a + b| - 1] == a + b[..|b| - 1];
      ReplayAppend(d, a, b[..|b| - 1]);
    }
  }

  lemma {:induction false} PopContiguous(es: seq<Entry>, k: nat)
    requires Contiguous(es) && k <= |es|
    ensures Pop(es, k + 1) == es[..k]
    decreases |es|
  {
    if k < |es| {
      PopContiguous(es[..|es| - 1], k);
      assert es[..|es| - 1][..k] == es[..k];
    } else {
      assert es[..k] == es;
    }
  }

  lemma {:induction false} ReplayLogRecs(d: Durable, es: seq<Entry>)
    ensures ReplayFrom(d, LogRecs(es)) == d.(entries := d.entries + es)
    decreases |es|
  {
    if es == [] {
      assert d.entries + es == d.entries;
    } else {
      var init := es[..|es| - 1];
      assert LogRecs(es)[..|es| - 1] == LogRecs(init);
      ReplayLogRecs(d, init);
      assert d.entries + es == (d.entries + init) + [es[|es| - 1]];
    }
  }

  /** Hard state first, then the truncation: the state before any entry is written. */
  lemma ReplayHead(n: Node, persisted: nat, d: Durable)
    requires InStep(n, persisted, d)
    ensures ReplayFrom(d, HardPart(n) + TruncatePart(n, persisted)) == Durable(n.term, n.vote, n.log[1..n.stable + 1])
    ensures Kept(n, persisted) == n.stable
  {
    var d1 := Durable(n.term, n.vote, d.entries);
    assert ReplayFrom(d, HardPart(n)) == d1;
    ReplayAppend(d, HardPart(n), TruncatePart(n, persisted));
    if n.stable < persisted {
      PopContiguous(d.entries, n.stable);
      assert ReplayFrom(d1, [Truncate(n.stable + 1)]) == ReplayOne(ReplayFrom(d1, []), Truncate(n.stable + 1));
    } else {
      assert d.entries[..n.stable] == d.entries;
    }
  }

  /** After the head of the batch, j entry records bring back j more entries. */
  lemma ReplayEntries(n: Node, persisted: nat, d: Durable, j: nat)
    requires InStep(n, persisted, d) && n.stable + j <= LastIndex(n.log)
    ensures j <= |EntryPart(n, persisted)|
    ensures ReplayFrom(d, HardPart(n) + TruncatePart(n, persisted) + EntryPart(n, persisted)[..j])
            == Durable(n.term, n.vote, n.log[1..n.stable + j + 1])
  {
    ReplayHead(n, persisted, d);
    var es := n.log[n.stable + 1..n.stable + j + 1];
    assert EntryPart(n, persisted)[..j] == LogRecs(es);
    var head := HardPart(n) + TruncatePart(n, persisted);
    ReplayAppend(d, head, LogRecs(es));
    ReplayLogRecs(Durable(n.term, n.vote, n.log[1..n.stable + 1]), es);
    assert n.log[1..n.stable + 1] + es == n.log[1..n.stable + j + 1];
  }

  /** After a Save, replay gives exactly the term, the vote and the log. */
  lemma SaveRefines(n: Node, persisted: nat, rs: seq<Rec>)
    requires InStep(n, persisted, Replay(rs))
    ensures Replay(rs + Batch(n, persisted)) == Durable(n.term, n.vote, n.log[1..])
    ensures InStep(Saved(n), LastIndex(n.log), Replay(rs + Batch(n, persisted)))
    ensures PersistedIndex(Replay(rs + Batch(n, persisted))) == LastIndex(n.log)
  {
    hide ReplayFrom, HardPart, TruncatePart;
    ReplayEntries(n, persisted, Replay(rs), LastIndex(n.log) - n.stable);
    var es := EntryPart(n, persisted);
    assert |es| == LastIndex(n.log) - n.stable && es[..|es|] == es;
    ReplayAppend(Durable(0, 0, []), rs, Batch(n, persisted));
    assert n.log[1..LastIndex(n.log) + 1] == n.log[1..];
    forall i | 0 <= i < |n.log[1..]| ensures n.log[1..][i].index == i + 1 {
      assert n.log[1..][i] == n.log[i + 1];
    }
  }

  /** Crash in the middle of a Save: any proper, non-empty prefix of the batch
      leaves the new hard state, and either the old durable log or a prefix of the
      new log that is no shorter than its stable part. */
  lemma SaveTorn(n: Node, persisted: nat, rs: seq<Rec>, k: nat)
    requires InStep(n, persisted, Replay(rs))
    requires 0 < k <= |Batch(n, persisted)|
    ensures var d := Replay(rs + Batch(n, persisted)[..k]);
            && d.term == n.term && d.vote == n.vote
            && (d.entries == Replay(rs).entries
                || (n.stable <= |d.entries| <= LastIndex(n.log) && d.entries == n.log[1..|d.entries| + 1]))
  {
    var before, b := Replay(rs), Batch(n, persisted);
    var head := HardPart(n) + TruncatePart(n, persisted);
    ReplayAppend(Durable(0, 0, []), rs, b[..k]);
    if |head| <= k {
      var j := k - |head|;
      assert b[..k] == head + EntryPart(n, persisted)[..j];
      ReplayHead(n, persisted, before);
      ReplayEntries(n, persisted, before, j);
    } else {
      assert b[..k] == HardPart(n);
      assert ReplayFrom(before, HardPart(n)) == ReplayOne(ReplayFrom(before, []), HardState(n.term, n.vote));
    }
  }

  /** Reopening brings back the term, the vote and the log, fully stable. */
  lemma ReopenInStep(c: Config, d: Durable)
    requires Contiguous(d.entries)
    ensures var n := Reopened(c, d);
            InStep(n, |d.entries|, d) && n.term == d.term && n.vote == d.vote && n.log == [SENTINEL] + d.entries
            && PersistedIndex(d) == |d.entries|
  {
    var n := Reopened(c, d);
    assert n.log[1..n.stable + 1] == d.entries == d.entries[..n.stable];
  }

  // ------------------------------------------------- core calls keep it

  /** Entries are numbered on from the previous index. */
  ghost predicate Follows(m: Message)
    requires m.AppendEntries?
  {
    forall i | 0 <= i < |m.entries| :: m.entries[i].index == m.prevLogIndex + 1 + i
  }

  /** The append loop never touches the part of the log it leaves marked stable. */
  lemma {:induction false} MergeStable(l: Log, stable: nat, prev: nat, es: seq<Entry>)
    requires Indexed(l) && stable <= LastIndex(l) && prev <= LastIndex(l)
    requires forall i | 0 <= i < |es| :: es[i].index == prev + 1 + i
    ensures var (l', st') := Spec.Merge(l, stable, es);
            && Indexed(l') && st' <= stable && st' <= LastIndex(l')
            && l'[..st' + 1] == l[..st' + 1] && prev + |es| <= LastIndex(l')
    decreases |es|
  {
    if es != [] {
      var k := |es| - 1;
      MergeStable(l, stable, prev, es[..k]);
      var (l1, st1) := Spec.Merge(l, stable, es[..k]);
      var (l', st') := Spec.MergeOne(l1, st1, es[k]);
      MergeOneStable(l1, st1, es[k]);
      assert l'[..st' + 1] == l1[..st' + 1] == l1[..st1 + 1][..st' + 1];
      assert l[..st' + 1] == l[..st1 + 1][..st' + 1];
    }
  }

  lemma MergeOneStable(l: Log, stable: nat, e: Entry)
    requires Indexed(l) && stable <= LastIndex(l) && 0 < e.index <= |l|
    ensures var (l', st') := Spec.MergeOne(l, stable, e);
            && Indexed(l') && st' <= stable && st' <= LastIndex(l')
            && l'[..st' + 1] == l[..st' + 1] && e.index <= LastIndex(l')
  {
  }

  /** Nothing recorded is contradicted by moving to n'. */
  ghost predicate Tame(n: Node, n': Node) {
    && Indexed(n'.log)
    && n'.stable <= n.stable && n'.stable <= LastIndex(n.log) && n'.stable <= LastIndex(n'.log)
    && n'.log[..n'.stable + 1] == n.log[..n'.stable + 1]
    && (!n'.dirty ==> !n.dirty && n'.term == n.term && n'.vote == n.vote)
  }

  lemma TameInStep(n: Node, n': Node, persisted: nat, d: Durable)
    requires InStep(n, persisted, d) && Tame(n, n')
    ensures InStep(n', persisted, d)
  {
    assert n'.log[1..n'.stable + 1] == n'.log[..n'.stable + 1][1..];
    assert n.log[1..n'.stable + 1] == n.log[..n'.stable + 1][1..];
    assert n.log[1..n'.stable + 1] == n.log[1..n.stable + 1][..n'.stable];
    assert d.entries[..n'.stable] == d.entries[..n.stable][..n'.stable];
  }

  /** Same log and watermark; the hard state changed only with the flag raised. */
  ghost predicate Light(n: Node, n': Node) {
    n'.log == n.log && n'.stable == n.stable && (n'.dirty || (n.term == n'.term && n.vote == n'.vote && !n.dirty))
  }

  lemma LightTame(n: Node, n': Node)
    requires Indexed(n.log) && n.stable <= LastIndex(n.log) && Light(n, n')
    ensures Tame(n, n')
  {
  }

  lemma AppendTame(n: Node, n0: Node, m: Message)
    requires Indexed(n.log) && n.stable <= LastIndex(n.log) && Light(n, n0)
    requires m.AppendEntries? && Follows(m)
    ensures Tame(n, Spec.HandleAppendEntries(n0, m))
  {
    hide Spec.Merge;
    if m.prevLogIndex <= LastIndex(n.log) && TermAt(n.log, m.prevLogIndex) == m.prevLogTerm {
      MergeStable(n.log, n.stable, m.prevLogIndex, m.entries);
    }
  }

  lemma StepTame(n: Node, m: Message)
    requires Indexed(n.log) && n.stable <= LastIndex(n.log)
    requires m.AppendEntries? ==> Follows(m)
    ensures Tame(n, Spec.Step(n, m))
  {
    hide Spec.Merge, Spec.Others, Spec.CommitPoint;
    if m.AppendEntries? && m.term >= n.term {
      var n0 := if m.term > n.term || n.role == Candidate then Spec.BecomeFollower(n, m.term, m.from) else n;
      AppendTame(n, n0, m);
      if n.role == Leader && m.term == n.term {
        LightTame(n, n);
      }
    } else {
      LightTame(n, Spec.Step(n, m));
    }
  }

  lemma TickTame(n: Node)
    requires Indexed(n.log) && n.stable <= LastIndex(n.log)
    ensures Tame(n, Spec.Tick(n))
  {
    hide Spec.Others, Spec.PeerMap;
    LightTame(n, Spec.Tick(n));
  }

  lemma ProposeTame(n: Node, data: Bytes)
    requires Indexed(n.log) && n.stable <= LastIndex(n.log)
    ensures Tame(n, Spec.Propose(n, data))
  {
    hide Spec.CommitPoint;
  }
}
