/** Replicated tables: in every run of a cluster, the stores of nodes that have not
    restarted agree as far as both have applied. */
module ReplicatedTables {
  import opened RaftTypes
  import opened RaftCluster
  import opened RaftTheorems
  import opened RaftDelivery
  import opened ReplicatedDb
  import K = Commands
  import C = Coding

  /** Table and applied index of node u's store in state j, if the store was synced
      after every event of that node. */
  function StoreAt(run: seq<Cluster>, evs: seq<Event>, u: NodeId, j: nat): (Table, nat)
    requires |run| == |evs| + 1 && j < |run| && Serves(run, u)
  {
    if j == 0 then (map[], 0)
    else if evs[j - 1].id != u then StoreAt(run, evs, u, j - 1)
    else
      var (t, a) := StoreAt(run, evs, u, j - 1);
      var n := run[j].servers[u].live;
      (AppliedTable(t, n.log, a, n.commit), n.commit)
  }

  /** What the committed part of a log makes of the empty table. */
  function CommittedTable(n: Node): Table { AppliedTable(map[], n.log, 0, n.commit) }

  /** Applying on from where the last sync stopped is applying from the start. */
  lemma AppliedOn(a: Log, b: Log, i: nat, j: nat)
    requires Agree(a, b, i) && i <= j < |b|
    ensures AppliedTable(AppliedTable(map[], a, 0, i), b, i, j) == AppliedTable(map[], b, 0, j)
  {
    hide K.ApplyPayloads;
    assert a[1..i + 1] == a[..i + 1][1..] == b[1..i + 1];
    assert b[1..j + 1] == b[1..i + 1] + b[i + 1..j + 1];
    assert Payloads(b[1..j + 1]) == Payloads(b[1..i + 1]) + Payloads(b[i + 1..j + 1]);
    K.ApplyAppend(map[], Payloads(b[1..i + 1]), Payloads(b[i + 1..j + 1]));
  }

  lemma NothingApplied(n: Node)
    requires n.commit == 0
    ensures CommittedTable(n) == map[]
  {
  }

  /** A live store's table is the fold of everything its node knows committed. */
  lemma {:induction false} StoreIsFold(ms: set<NodeId>, run: seq<Cluster>, evs: seq<Event>, u: NodeId, j: nat)
    requires IsRun(ms, run, evs) && u in ms && j < |run| && Unbroken(evs, u, j)
    ensures |run| == |evs| + 1 && Serves(run, u)
    ensures var n := run[j].servers[u].live;
            StoreAt(run, evs, u, j) == (CommittedTable(n), n.commit)
    decreases j
  {
    hide IsRun, AppliedTable, Agree;
    RunServes(ms, run, evs, u);
    if j == 0 {
      StartsClean(ms, run, evs, u);
      NothingApplied(run[0].servers[u].live);
    } else {
      StoreIsFold(ms, run, evs, u, j - 1);
      if evs[j - 1].id == u {
        CommittedOn(ms, run, evs, u, j - 1);
      } else {
        OthersStay(ms, run, evs, u, j - 1);
      }
    }
  }

  /** One event of the node itself, followed by a sync. */
  lemma CommittedOn(ms: set<NodeId>, run: seq<Cluster>, evs: seq<Event>, u: NodeId, j: nat)
    requires IsRun(ms, run, evs) && u in ms && j < |evs| && evs[j].id == u && evs[j].Act?
    requires u in run[j].servers && u in run[j + 1].servers
    ensures var a, b := run[j].servers[u].live, run[j + 1].servers[u].live;
            AppliedTable(CommittedTable(a), b.log, a.commit, b.commit) == CommittedTable(b)
  {
    hide IsRun, AppliedTable, Agree;
    RunServes(ms, run, evs, u);
    var a, b := run[j].servers[u].live, run[j + 1].servers[u].live;
    CommittedForever(ms, run, evs, j, j + 1, u);
    CommittedForever(ms, run, evs, j + 1, j + 1, u);
    CommitNeverFalls(ms, run, evs, j, u);
    InLog(b);
    AppliedOn(a.log, b.log, a.commit, b.commit);
  }

  lemma InLog(n: Node)
    requires Agree(n.log, n.log, n.commit)
    ensures n.commit < |n.log|
  {
  }

  lemma OthersStay(ms: set<NodeId>, run: seq<Cluster>, evs: seq<Event>, u: NodeId, j: nat)
    requires IsRun(ms, run, evs) && j < |evs| && evs[j].id != u && u in run[j].servers
    ensures u in run[j + 1].servers && run[j + 1].servers[u] == run[j].servers[u]
  {
    hide Init, Call, Persist, Boot;
    assert Next(run[j], evs[j], run[j + 1]);
  }

  /** Tables agree: of two nodes that have not restarted, at any two moments, the one
      that has applied more has exactly the other's table with the further entries
      of its log applied; at the same applied index the tables are equal. */
  lemma TablesAgree(ms: set<NodeId>, run: seq<Cluster>, evs: seq<Event>, j: nat, k: nat, u: NodeId, v: NodeId)
    requires IsRun(ms, run, evs) && j < |run| && k < |run| && u in ms && v in ms
    requires Unbroken(evs, u, j) && Unbroken(evs, v, k)
    ensures |run| == |evs| + 1 && Serves(run, u) && Serves(run, v)
    ensures var ((t, a), (t', a')) := (StoreAt(run, evs, u, j), StoreAt(run, evs, v, k));
            && (a <= a' ==> t' == AppliedTable(t, run[k].servers[v].live.log, a, a'))
            && (a == a' ==> t' == t)
  {
    hide IsRun, AppliedTable, Agree;
    StoreIsFold(ms, run, evs, u, j);
    StoreIsFold(ms, run, evs, v, k);
    var x, y := run[j].servers[u].live, run[k].servers[v].live;
    if x.commit <= y.commit {
      StateMachineSafety(ms, run, evs, j, k, u, v, x.commit);
      CommittedForever(ms, run, evs, k, k, v);
      InLog(y);
      AppliedOn(x.log, y.log, x.commit, y.commit);
      NothingBetween(CommittedTable(x), y.log, y.commit);
    }
  }

  lemma NothingBetween(t: Table, log: Log, a: nat)
    ensures AppliedTable(t, log, a, a) == t
  {
  }

  /** What a live store answers: the last put of the key among the commands in the
      entries its node knows committed, unless a later command has the key. */
  lemma StoreAnswers(
      ms: set<NodeId>, run: seq<Cluster>, evs: seq<Event>, u: NodeId, j: nat, k: Bytes, v: Bytes)
    requires IsRun(ms, run, evs) && u in ms && j < |run| && Unbroken(evs, u, j)
    ensures |run| == |evs| + 1 && Serves(run, u)
    ensures var n := run[j].servers[u].live;
            n.commit < |n.log|
            && (K.Lookup(StoreAt(run, evs, u, j).0, k) == C.Some(v)
                <==> K.LastWrite(K.Decoded(Payloads(n.log[1..n.commit + 1])), k, v))
  {
    hide IsRun, Agree, K.LastWrite, K.ApplyPayloads, K.Decoded;
    StoreIsFold(ms, run, evs, u, j);
    CommittedForever(ms, run, evs, j, j, u);
    var n := run[j].servers[u].live;
    InLog(n);
    var ps := Payloads(n.log[1..n.commit + 1]);
    K.AppliedDecoded(map[], ps);
    K.AppliedLookup(K.Decoded(ps), k, v);
  }
}
