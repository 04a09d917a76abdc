/** What a node hands to its state machine: over a run, every committed entry, once
    and in order. */
module RaftDelivery {
  import opened RaftTypes
  import Spec = RaftSpec
  import opened RaftProtocol
  import opened RaftCluster
  import opened RaftTheorems
  import opened RaftRefine
  import opened Durability

  /** Node u neither restarts nor crashes before state j. */
  ghost predicate Unbroken(evs: seq<Event>, u: NodeId, j: nat) {
    forall i | 0 <= i < j && i < |evs| && evs[i].id == u :: evs[i].Act?
  }

  /** Node u is there in every state, with its commit index inside its log. */
  ghost predicate Serves(run: seq<Cluster>, u: NodeId) {
    forall i | 0 <= i < |run| ::
      u in run[i].servers && run[i].servers[u].live.commit <= LastIndex(run[i].servers[u].live.log)
  }

  /** Everything TakeCommitted has returned on node u by state j. */
  function Taken(run: seq<Cluster>, evs: seq<Event>, u: NodeId, j: nat): seq<Entry>
    requires |run| == |evs| + 1 && j < |run| && Serves(run, u)
  {
    if j == 0 then []
    else
      Taken(run, evs, u, j - 1)
      + (if evs[j - 1] == Act(u, Apply) then Spec.Unapplied(run[j - 1].servers[u].live) else [])
  }

  lemma RunServes(ms: set<NodeId>, run: seq<Cluster>, evs: seq<Event>, u: NodeId)
    requires IsRun(ms, run, evs) && u in ms
    ensures |run| == |evs| + 1 && Serves(run, u)
  {
    hide Init, Next;
    forall i | 0 <= i < |run|
      ensures u in run[i].servers && run[i].servers[u].live.commit <= LastIndex(run[i].servers[u].live.log)
    {
      CommittedForever(ms, run, evs, i, i, u);
    }
  }

  /** Only taking committed entries moves the cursor, and only to the commit index. */
  lemma Cursor(ms: set<NodeId>, run: seq<Cluster>, evs: seq<Event>, u: NodeId, j: nat)
    requires IsRun(ms, run, evs) && u in ms && j < |evs| && (evs[j].id == u ==> evs[j].Act?)
    requires u in run[j].servers && u in run[j + 1].servers
    ensures run[j].servers[u].live.lastApplied <= run[j].servers[u].live.commit
    ensures var a, b := run[j].servers[u].live, run[j + 1].servers[u].live;
            && b.lastApplied == (if evs[j] == Act(u, Apply) then a.commit else a.lastApplied)
            && (evs[j] == Act(u, Apply) ==> b.log == a.log)
  {
    hide Inv, Init, Record, Batch, Boot, Spec.Step, Spec.Tick, Spec.Propose;
    RunOk(ms, run, evs, j);
    assert Next(run[j], evs[j], run[j + 1]);
    assert ServerOk(ms, u, run[j].servers[u]);
    if evs[j].id == u && !evs[j].input.Apply? {
      CallShape(run[j].servers[u].live, evs[j].input);
    }
  }

  lemma SplitAt(l: Log, a: nat, c: nat)
    requires a <= c < |l|
    ensures l[1..c + 1] == l[1..a + 1] + l[a + 1..c + 1]
  {
  }

  lemma AgreePrefixes(a: Log, b: Log, c: nat, i: nat)
    requires Agree(a, b, c) && i <= c
    ensures i < |a| && i < |b| && a[1..i + 1] == b[1..i + 1]
  {
    assert a[1..i + 1] == a[..c + 1][1..i + 1];
    assert b[1..i + 1] == b[..c + 1][1..i + 1];
  }

  /** Taken together, the entries handed over are exactly the log up to the cursor:
      none is left out, repeated or out of order. */
  lemma {:induction false} TakenIsLog(ms: set<NodeId>, run: seq<Cluster>, evs: seq<Event>, u: NodeId, j: nat)
    requires IsRun(ms, run, evs) && u in ms && j < |run| && Unbroken(evs, u, j)
    ensures |run| == |evs| + 1 && Serves(run, u)
    ensures var n := run[j].servers[u].live;
            n.lastApplied <= n.commit && Taken(run, evs, u, j) == n.log[1..n.lastApplied + 1]
    decreases j
  {
    hide IsRun, Agree;
    RunServes(ms, run, evs, u);
    if j == 0 {
      StartsClean(ms, run, evs, u);
    } else {
      TakenIsLog(ms, run, evs, u, j - 1);
      TakenMore(ms, run, evs, u, j - 1);
    }
  }

  /** One more event hands over what lies between the cursor and where it goes. */
  lemma TakenMore(ms: set<NodeId>, run: seq<Cluster>, evs: seq<Event>, u: NodeId, j: nat)
    requires IsRun(ms, run, evs) && u in ms && j < |evs| && (evs[j].id == u ==> evs[j].Act?)
    requires |run| == |evs| + 1 && Serves(run, u)
    requires run[j].servers[u].live.lastApplied <= run[j].servers[u].live.commit
    ensures var a, b := run[j].servers[u].live, run[j + 1].servers[u].live;
            && b.lastApplied <= b.commit
            && b.log[1..b.lastApplied + 1]
               == a.log[1..a.lastApplied + 1] + (if evs[j] == Act(u, Apply) then Spec.Unapplied(a) else [])
  {
    hide IsRun, Agree;
    var a, b := run[j].servers[u].live, run[j + 1].servers[u].live;
    Cursor(ms, run, evs, u, j);
    CommittedForever(ms, run, evs, j, j + 1, u);
    CommitNeverFalls(ms, run, evs, j, u);
    AgreePrefixes(a.log, b.log, a.commit, b.lastApplied);
    hide Serves;
    if evs[j] == Act(u, Apply) {
      SplitAt(a.log, a.lastApplied, a.commit);
    } else {
      assert a.log[1..a.lastApplied + 1] + [] == a.log[1..a.lastApplied + 1];
    }
  }

  lemma StartsClean(ms: set<NodeId>, run: seq<Cluster>, evs: seq<Event>, u: NodeId)
    requires IsRun(ms, run, evs) && u in ms && u in run[0].servers
    ensures var n := run[0].servers[u].live;
            n.lastApplied == 0 && n.commit == 0
  {
    hide Next;
  }

  /** Right after a call of TakeCommitted that is everything up to the commit index. */
  lemma AllCommittedTaken(ms: set<NodeId>, run: seq<Cluster>, evs: seq<Event>, u: NodeId, j: nat)
    requires IsRun(ms, run, evs) && u in ms && j < |evs| && Unbroken(evs, u, j + 1) && evs[j] == Act(u, Apply)
    ensures |run| == |evs| + 1 && Serves(run, u)
    ensures var n := run[j].servers[u].live;
            Taken(run, evs, u, j + 1) == n.log[1..n.commit + 1]
  {
    hide IsRun;
    RunServes(ms, run, evs, u);
    TakenIsLog(ms, run, evs, u, j + 1);
    Cursor(ms, run, evs, u, j);
  }
}
