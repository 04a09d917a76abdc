/** Any run of core calls, saves, reopens and crashes inside a save: several calls,
    and several conflict truncations, may come between two saves. */
module DurableRuns {
  import opened RaftTypes
  import opened Durability
  import Spec = RaftSpec

  datatype Op =
    | Msg(m: Message)
    | Clock
    | Client(data: Bytes)
    | Take
    | Save
    | Reopen
    | Crash(records: nat)

  datatype Disked = Disked(node: Node, persisted: nat, disk: seq<Rec>)

  /** A node opened on a disk. */
  function Booted(c: Config, disk: seq<Rec>): Disked {
    Disked(Reopened(c, Replay(disk)), PersistedIndex(Replay(disk)), disk)
  }

  /** At most k records of a save. */
  function Torn(rs: seq<Rec>, k: nat): seq<Rec> { if k <= |rs| then rs[..k] else rs }

  function Do(c: Config, s: Disked, op: Op): Disked {
    match op
    case Msg(m) => s.(node := Spec.Step(s.node, m))
    case Clock => s.(node := Spec.Tick(s.node))
    case Client(data) => s.(node := Spec.Propose(s.node, data))
    case Take => s.(node := s.node.(lastApplied := s.node.commit, out := []))
    case Save => Disked(Saved(s.node), LastIndex(s.node.log), s.disk + Batch(s.node, s.persisted))
    case Reopen => Booted(c, s.disk)
    case Crash(k) => Booted(c, s.disk + Torn(Batch(s.node, s.persisted), k))
  }

  function Run(c: Config, ops: seq<Op>): Disked {
    if ops == [] then Disked(Spec.Fresh(c), 0, []) else Do(c, Run(c, ops[..|ops| - 1]), ops[|ops| - 1])
  }

  /** The entries of every message are numbered on from its previous index. */
  ghost predicate Fed(ops: seq<Op>) {
    forall i | 0 <= i < |ops| && ops[i].Msg? && ops[i].m.AppendEntries? :: Follows(ops[i].m)
  }

  ghost predicate Sound(s: Disked) { InStep(s.node, s.persisted, Replay(s.disk)) }

  lemma BootSound(c: Config, disk: seq<Rec>)
    requires Contiguous(Replay(disk).entries)
    ensures Sound(Booted(c, disk))
  {
    hide Replay, Reopened;
    ReopenInStep(c, Replay(disk));
  }

  lemma CallSound(c: Config, s: Disked, op: Op)
    requires Sound(s) && (op.Msg? || op.Clock? || op.Client? || op.Take?)
    requires op.Msg? && op.m.AppendEntries? ==> Follows(op.m)
    ensures Sound(Do(c, s, op))
  {
    hide Replay, Spec.Step, Spec.Tick, Spec.Propose, Tame;
    match op {
      case Msg(m) => StepTame(s.node, m);
      case Clock => TickTame(s.node);
      case Client(data) => ProposeTame(s.node, data);
      case Take => LightTame(s.node, Do(c, s, op).node);
    }
    TameInStep(s.node, Do(c, s, op).node, s.persisted, Replay(s.disk));
  }

  lemma PrefixContiguous(l: Log, k: nat)
    requires Indexed(l) && k < |l|
    ensures Contiguous(l[1..k + 1])
  {
    var es := l[1..k + 1];
    forall i | 0 <= i < |es| ensures es[i].index == i + 1 {
      assert es[i] == l[i + 1];
    }
  }

  /** Whatever a crash leaves of a save is a log numbered from 1. */
  lemma TornContiguous(s: Disked, k: nat)
    requires Sound(s)
    ensures Contiguous(Replay(s.disk + Torn(Batch(s.node, s.persisted), k)).entries)
  {
    hide Replay, Batch, Contiguous, Indexed;
    var b := Batch(s.node, s.persisted);
    var j := if k <= |b| then k else |b|;
    assert b[..|b|] == b;
    if j == 0 {
      assert s.disk + b[..0] == s.disk;
    } else {
      SaveTorn(s.node, s.persisted, s.disk, j);
      var d := Replay(s.disk + b[..j]);
      if d.entries != Replay(s.disk).entries {
        PrefixContiguous(s.node.log, |d.entries|);
      }
    }
  }

  /** After every operation of every run, node and record stream are in step. */
  lemma {:induction false} RunSound(c: Config, ops: seq<Op>)
    requires Fed(ops)
    ensures Sound(Run(c, ops))
    decreases |ops|
  {
    hide Do, Batch, Sound;
    if ops == [] {
      FreshSound(c);
    } else {
      var op := ops[|ops| - 1];
      assert Fed(ops[..|ops| - 1]);
      RunSound(c, ops[..|ops| - 1]);
      DoSound(c, Run(c, ops[..|ops| - 1]), op);
    }
  }

  lemma FreshSound(c: Config)
    ensures Sound(Disked(Spec.Fresh(c), 0, []))
  {
    assert [SENTINEL][1..1] == [] == Replay([]).entries[..0];
  }

  lemma DoSound(c: Config, s: Disked, op: Op)
    requires Sound(s) && (op.Msg? && op.m.AppendEntries? ==> Follows(op.m))
    ensures Sound(Do(c, s, op))
  {
    hide Batch, Replay, InStep, Booted;
    match op
    case Save => SaveRefines(s.node, s.persisted, s.disk);
    case Reopen =>
      StreamContiguous(s);
      BootSound(c, s.disk);
    case Crash(k) =>
      TornContiguous(s, k);
      BootSound(c, s.disk + Torn(Batch(s.node, s.persisted), k));
    case _ => CallSound(c, s, op);
  }

  lemma StreamContiguous(s: Disked)
    requires Sound(s)
    ensures Contiguous(Replay(s.disk).entries)
  {
  }

  lemma RunSnoc(c: Config, ops: seq<Op>, op: Op)
    ensures Run(c, ops + [op]) == Do(c, Run(c, ops), op)
  {
    hide Do;
    assert (ops + [op])[..|ops|] == ops;
  }

  /** The durable log refines the live log: after every Save of every run, replay
      gives exactly the term, the vote and the log of the node. */
  lemma SavedIsDurable(c: Config, ops: seq<Op>)
    requires Fed(ops)
    ensures var n := Run(c, ops).node;
            Replay(Run(c, ops + [Save]).disk) == Durable(n.term, n.vote, n.log[1..])
  {
    hide Run, Batch, Replay;
    var s := Run(c, ops);
    RunSound(c, ops);
    RunSnoc(c, ops, Save);
    SaveRefines(s.node, s.persisted, s.disk);
  }

  /** Closing right after a Save and opening again brings the node back. */
  lemma ReopenedIsSame(c: Config, ops: seq<Op>)
    requires Fed(ops)
    ensures var n, n' := Run(c, ops).node, Run(c, ops + [Save] + [Reopen]).node;
            n'.term == n.term && n'.vote == n.vote && n'.log == n.log
  {
    hide Run, Batch, Replay, Reopened;
    var s := Run(c, ops);
    RunSound(c, ops);
    SavedIsDurable(c, ops);
    RunSnoc(c, ops, Save);
    RunSnoc(c, ops + [Save], Reopen);
    var d := Replay(Run(c, ops + [Save]).disk);
    SaveRefines(s.node, s.persisted, s.disk);
    ReopenInStep(c, d);
    assert s.node.log == [SENTINEL] + s.node.log[1..];
  }

  /** A crash that hits the k-th record of a Save, in any run: the hard state that
      comes back is the last durable one or the new one, and the log is the last
      durable one or a prefix of the new one that keeps its stable part. */
  lemma CrashInRun(c: Config, ops: seq<Op>, k: nat)
    requires Fed(ops)
    ensures var s, n' := Run(c, ops), Run(c, ops + [Crash(k)]).node;
            var n, was := s.node, Replay(s.disk);
            && ((n'.term, n'.vote) == (was.term, was.vote) || (n'.term, n'.vote) == (n.term, n.vote))
            && (n'.log == [SENTINEL] + was.entries
                || (n.stable <= LastIndex(n'.log) <= LastIndex(n.log) && n'.log == n.log[..|n'.log|]))
  {
    hide Run, Batch, Replay, Reopened;
    var s := Run(c, ops);
    RunSound(c, ops);
    RunSnoc(c, ops, Crash(k));
    TornContiguous(s, k);
    var b := Batch(s.node, s.persisted);
    var d := Replay(s.disk + Torn(b, k));
    ReopenInStep(c, d);
    assert b[..|b|] == b && s.disk + b[..0] == s.disk;
    var j := if k <= |b| then k else |b|;
    if j > 0 {
      SaveTorn(s.node, s.persisted, s.disk, j);
      if d.entries != Replay(s.disk).entries {
        assert s.node.log[..|d.entries| + 1] == [SENTINEL] + s.node.log[1..|d.entries| + 1];
      }
    }
  }
}
