/** What holds over every run of the cluster: election safety, log matching,
    leader completeness, state machine safety, permanence of committed entries,
    sound replication bookkeeping and a disk that always says what the node knows. */
module RaftTheorems {
  import opened RaftTypes
  import Spec = RaftSpec
  import opened RaftProtocol
  import opened RaftMoves
  import opened RaftGrowth
  import opened RaftRefine
  import opened RaftAppend
  import opened Durability
  import opened RaftCluster

  /** A run: any interleaving of actions, restarts and crashes. */
  ghost predicate IsRun(ms: set<NodeId>, run: seq<Cluster>, evs: seq<Event>) {
    && |run| == |evs| + 1
    && Init(ms, run[0])
    && (forall i | 0 <= i < |evs| :: Next(run[i], evs[i], run[i + 1]))
  }

  lemma {:induction false} RunOk(ms: set<NodeId>, run: seq<Cluster>, evs: seq<Event>, j: nat)
    requires IsRun(ms, run, evs) && j < |run|
    ensures ClusterOk(ms, run[j])
  {
    hide ClusterOk, Next, Init;
    if j == 0 {
      InitOk(ms, run[0]);
    } else {
      RunOk(ms, run, evs, j - 1);
      assert Next(run[j - 1], evs[j - 1], run[j - 1 + 1]);
      NextKeeps(ms, run[j - 1], evs[j - 1], run[j]);
    }
  }

  // ----------------------------------------------- history along a run

  /** A node that stays leader only appends, and no follower wins the term it is in. */
  ghost predicate LeadsOn(n: Node, n': Node) {
    && (n'.role == Leader && n.role == Leader && n'.term == n.term ==> n.log <= n'.log)
    && (n'.role == Leader && n.role == Follower ==> n.term < n'.term)
  }

  lemma StepLeadsOn(n: Node, m: Message)
    ensures LeadsOn(n, Spec.Step(n, m))
  {
    hide Spec.Merge, Spec.Others, Spec.PeerMap, Spec.AppendMsgs, Spec.Grants, Spec.CommitPoint, Spec.RecordVote;
  }

  lemma LeaderShapes(n: Node, i: Input)
    ensures LeadsOn(n, Call(n, i))
  {
    hide Spec.Step, Spec.Others, Spec.PeerMap, Spec.AppendMsgs, Spec.VoteRequests, Spec.CommitPoint;
    if i.Deliver? {
      StepLeadsOn(n, i.m);
    }
  }

  /** A term that had a leader before the call is not won again in it. */
  lemma NoSecondWin(ms: set<NodeId>, s: View, v: NodeId, n: Node, i: Input)
    requires Inv(ms, s) && Live(ms, s, v, n) && Inv(ms, After(s, v, Call(n, i)))
    requires var n' := Call(n, i); n'.role == Leader && (n.role != Leader || n.term != n'.term)
    ensures Call(n, i).term !in s.h.elected
  {
    hide AcksOk, VotesOk, CommitsOk, SlotsOk, MsgsOk, Good, Settled, Call, ToSet;
    var n' := Call(n, i);
    var t, s' := n'.term, After(s, v, n');
    LeaderShapes(n, i);
    if t in s.h.elected {
      assert ElectionOk(ms, s'.h, t, s'.h.elected[t]) && ElectionOk(ms, s.h, t, s.h.elected[t]);
      assert NodeOk(ms, s.h, s.msgs, v, s.nodes[v]);
      WinnerBefore(ms, s, s', t, v);
    }
  }

  lemma WinnerBefore(ms: set<NodeId>, s: View, s': View, t: Term, v: NodeId)
    requires t in s.h.elected && t in s'.h.elected && s'.h.elected[t].leader == v
    requires ElectionOk(ms, s.h, t, s.h.elected[t]) && ElectionOk(ms, s'.h, t, s'.h.elected[t])
    requires s.h.ballots <= s'.h.ballots && BallotsOk(ms, s')
    ensures s.h.elected[t].leader == v
  {
    hide Good;
    var w := QuorumsMeet(ms, s.h.elected[t].voters, s'.h.elected[t].voters);
    assert Ballot(t, w, v) in s'.h.ballots && Ballot(t, w, s.h.elected[t].leader) in s'.h.ballots;
  }

  lemma LeaderBefore(ms: set<NodeId>, s: View, v: NodeId)
    requires NodesOk(ms, s) && v in ms && s.nodes[v].role == Leader
    ensures s.nodes[v].term in s.h.leaderLog && s.h.leaderLog[s.nodes[v].term] == s.nodes[v].log
  {
    assert NodeOk(ms, s.h, s.msgs, v, s.nodes[v]);
  }

  lemma RecordGrows(ms: set<NodeId>, h: History, v: NodeId, a: Replica, b: Replica)
    requires b.term > a.term ==> Slot(b.term, v) !in h.cand
    requires b.role == Leader && (a.role != Leader || a.term != b.term)
             ==> b.term !in h.elected && b.term !in h.leaderLog
    requires b.role == Leader && a.role == Leader && a.term == b.term
             ==> b.term in h.leaderLog && h.leaderLog[b.term] <= b.log
    ensures Grows(h, Record(ms, h, v, a, b))
  {
    hide HolderSet;
  }

  /** The history only grows: nothing recorded is ever withdrawn. */
  lemma CallGrows(ms: set<NodeId>, s: View, v: NodeId, n: Node, i: Input)
    requires Inv(ms, s) && Live(ms, s, v, n) && Inv(ms, After(s, v, Call(n, i)))
    ensures Grows(s.h, After(s, v, Call(n, i)).h)
  {
    hide AcksOk, VotesOk, CommitsOk, NodeOk, BallotsOk, SlotsOk, MsgsOk, ElectionOk, Call, ToSet, Record, Grows;
    var n' := Call(n, i);
    LeaderShapes(n, i);
    if n'.role == Leader {
      if n.role != Leader || n.term != n'.term {
        NoSecondWin(ms, s, v, n, i);
      } else {
        LeaderBefore(ms, s, v);
      }
    }
    RecordGrows(s.nodes.Keys, s.h, v, s.nodes[v], Abs(n'));
  }

  lemma NextGrows(ms: set<NodeId>, s: Cluster, e: Event, s': Cluster)
    requires ClusterOk(ms, s) && Next(s, e, s')
    ensures Grows(s.h, s'.h) && s.msgs <= s'.msgs
  {
    hide Inv, ServerOk, Call, ToSet, Boot, Batch, Record;
    if e.Act? {
      var n := Call(s.servers[e.id].live, e.input);
      ViewLive(ms, s, e.id);
      CallKeeps(ms, ViewOf(s), e.id, s.servers[e.id].live, e.input);
      CallGrows(ms, ViewOf(s), e.id, s.servers[e.id].live, e.input);
      ViewMove(s, e.id, s.servers[e.id]);
    }
  }

  lemma GrowsTrans(a: History, b: History, c: History)
    requires Grows(a, b) && Grows(b, c)
    ensures Grows(a, c)
  {
    forall t | t in a.leaderLog ensures t in c.leaderLog && a.leaderLog[t] <= c.leaderLog[t] {
      assert b.leaderLog[t] <= c.leaderLog[t];
    }
  }

  lemma {:induction false} RunGrows(ms: set<NodeId>, run: seq<Cluster>, evs: seq<Event>, j: nat, k: nat)
    requires IsRun(ms, run, evs) && j <= k < |run|
    ensures Grows(run[j].h, run[k].h) && run[j].msgs <= run[k].msgs
    decreases k
  {
    hide ClusterOk, Next, Init, Grows;
    if j < k {
      RunGrows(ms, run, evs, j, k - 1);
      RunOk(ms, run, evs, k - 1);
      assert Next(run[k - 1], evs[k - 1], run[k - 1 + 1]);
      NextGrows(ms, run[k - 1], evs[k - 1], run[k]);
      GrowsTrans(run[j].h, run[k - 1].h, run[k].h);
    } else {
      GrowsSelf(run[j].h);
    }
  }

  lemma GrowsSelf(h: History)
    ensures Grows(h, h)
  {
  }

  // -------------------------------------------------- what one state says

  /** The facts a node's state at one moment leaves in the history for good. */
  ghost predicate Witnessed(ms: set<NodeId>, h: History, v: NodeId, n: Node) {
    && Good(h.leaderLog, n.log)
    && n.commit < |n.log| && Settled(h, n.log, n.commit, n.term)
    && (n.role == Leader ==>
          n.term in h.elected && h.elected[n.term].leader == v && h.elected[n.term].init <= n.log
          && n.term in h.leaderLog && n.log <= h.leaderLog[n.term])
  }

  lemma StateWitnessed(ms: set<NodeId>, s: Cluster, v: NodeId)
    requires ClusterOk(ms, s) && v in ms
    ensures Witnessed(ms, s.h, v, s.servers[v].live)
  {
    hide AcksOk, VotesOk, CommitsOk, BallotsOk, SlotTerms, SlotsOk, MsgsOk, Good, Settled, ServerOk;
    hide CandidateOk, PeerOk, Quorum, ToSet;
    var r := ViewOf(s).nodes[v];
    assert NodeOk(ms, s.h, s.msgs, v, r);
    if r.role == Leader {
      assert ElectionOk(ms, s.h, r.term, s.h.elected[r.term]);
    }
  }

  lemma WitnessedGrows(ms: set<NodeId>, h: History, h': History, v: NodeId, n: Node)
    requires Witnessed(ms, h, v, n) && Grows(h, h')
    ensures Witnessed(ms, h', v, n)
  {
    GoodExtends(h.leaderLog, h'.leaderLog, n.log);
    SettledGrows(h, h', n.log, n.commit, n.term);
    hide Good, Settled;
  }

  /** State j of the run, as seen from the history of a later state k. */
  lemma SeenFrom(ms: set<NodeId>, run: seq<Cluster>, evs: seq<Event>, j: nat, k: nat, v: NodeId)
    requires IsRun(ms, run, evs) && j <= k < |run| && v in ms
    ensures v in run[j].servers && Witnessed(ms, run[k].h, v, run[j].servers[v].live)
    ensures Inv(ms, ViewOf(run[k])) && ViewOf(run[k]).h == run[k].h
  {
    hide IsRun, Inv, Witnessed, ServerOk, Grows;
    RunOk(ms, run, evs, j);
    RunOk(ms, run, evs, k);
    RunGrows(ms, run, evs, j, k);
    StateWitnessed(ms, run[j], v);
    WitnessedGrows(ms, run[j].h, run[k].h, v, run[j].servers[v].live);
  }

  function Max(a: nat, b: nat): nat { if a < b then b else a }

  // ---------------------------------------------------------- the theorems

  /** At most one node is ever leader of a term, across restarts. */
  lemma ElectionSafety(ms: set<NodeId>, run: seq<Cluster>, evs: seq<Event>, j: nat, k: nat, u: NodeId, v: NodeId)
    requires IsRun(ms, run, evs) && j < |run| && k < |run| && u in ms && v in ms
    requires u in run[j].servers && v in run[k].servers
    requires run[j].servers[u].live.role == Leader && run[k].servers[v].live.role == Leader
    requires run[j].servers[u].live.term == run[k].servers[v].live.term
    ensures u == v
  {
    hide IsRun, Inv, Good, Settled;
    SeenFrom(ms, run, evs, j, Max(j, k), u);
    SeenFrom(ms, run, evs, k, Max(j, k), v);
  }

  /** Two logs, of any nodes at any moments, with the same term at an index hold
      the same entries up to it. */
  lemma LogMatching(ms: set<NodeId>, run: seq<Cluster>, evs: seq<Event>, j: nat, k: nat, u: NodeId, v: NodeId, i: nat)
    requires IsRun(ms, run, evs) && j < |run| && k < |run| && u in ms && v in ms
    requires u in run[j].servers && v in run[k].servers
    requires var a, b := run[j].servers[u].live.log, run[k].servers[v].live.log;
             i < |a| && i < |b| && a[i].term == b[i].term
    ensures run[j].servers[u].live.log[..i + 1] == run[k].servers[v].live.log[..i + 1]
  {
    hide IsRun, Inv, Good, Settled;
    SeenFrom(ms, run, evs, j, Max(j, k), u);
    SeenFrom(ms, run, evs, k, Max(j, k), v);
    SameTermSameLog(run[Max(j, k)].h.leaderLog, run[j].servers[u].live.log, run[k].servers[v].live.log, i);
  }

  lemma InFlight(ms: set<NodeId>, s: View, m: Message, l: Log, x: nat)
    requires Basic(ms, s) && m in s.msgs && m.AppendEntries? && Good(s.h.leaderLog, l)
    requires x < |m.entries| && m.prevLogIndex + 1 + x < |l| && l[m.prevLogIndex + 1 + x].term == m.entries[x].term
    ensures l[m.prevLogIndex + 1..m.prevLogIndex + 2 + x] == m.entries[..x + 1]
    ensures l[m.prevLogIndex].term == m.prevLogTerm
  {
    hide NodesOk, BallotsOk, SlotTerms, SlotsOk, Good, Settled, Quorum;
    assert MsgOk(ms, s.h, m) && ElectionOk(ms, s.h, m.term, s.h.elected[m.term]);
    var ll, p := s.h.leaderLog[m.term], m.prevLogIndex;
    SameTermSameLog(s.h.leaderLog, l, ll, p + 1 + x);
    AgreeDown(l, ll, p + 1 + x, p);
    assert m.entries[..x + 1] == ll[..p + 2 + x][p + 1..];
    assert l[p + 1..p + 2 + x] == l[..p + 2 + x][p + 1..];
  }

  /** Log matching between a log and an AppendEntries in flight: one matching term
      means the whole overlap, data included, and the previous term, match. */
  lemma LogMatchingInFlight(
      ms: set<NodeId>, run: seq<Cluster>, evs: seq<Event>, j: nat, k: nat, u: NodeId, m: Message, x: nat)
    requires IsRun(ms, run, evs) && j < |run| && k < |run| && u in ms && u in run[j].servers
    requires m in run[k].msgs && m.AppendEntries? && x < |m.entries|
    requires var l := run[j].servers[u].live.log;
             m.prevLogIndex + 1 + x < |l| && l[m.prevLogIndex + 1 + x].term == m.entries[x].term
    ensures var l := run[j].servers[u].live.log;
            && l[m.prevLogIndex + 1..m.prevLogIndex + 2 + x] == m.entries[..x + 1]
            && l[m.prevLogIndex].term == m.prevLogTerm
  {
    hide IsRun, Basic, AcksOk, VotesOk, CommitsOk, Good, Settled, Grows;
    var z := Max(j, k);
    SeenFrom(ms, run, evs, j, z, u);
    RunGrows(ms, run, evs, k, z);
    InFlight(ms, ViewOf(run[z]), m, run[j].servers[u].live.log, x);
  }

  lemma SettledInLater(ms: set<NodeId>, s: View, l: Log, c: nat, t: Term, u: Term, l': Log)
    requires ElectionsOk(ms, s.h) && VotesOk(s) && CommitsOk(ms, s)
    requires Settled(s.h, l, c, t) && u in s.h.elected && t < u && s.h.elected[u].init <= l' && c < |l|
    requires l[0] == l'[0]
    ensures Agree(l, l', c)
  {
    hide ElectionsOk, VotesOk, CommitsOk;
    if c == 0 {
      assert l[..1] == l'[..1];
    } else {
      var k :| k in s.h.commits && k.term <= t && c <= k.index && k.term in s.h.leaderLog
               && Agree(l, s.h.leaderLog[k.term], c);
      CommitSurvivesElection(ms, s, k, u);
      AgreeDown(s.h.elected[u].init, s.h.leaderLog[k.term], k.index, c);
      AgreeExtend(l, s.h.elected[u].init, l', c);
    }
  }

  /** Leader completeness: what any node of term t knows to be committed is in the
      log of every leader of every later term, whichever of the two comes first. */
  lemma LeaderCompleteness(ms: set<NodeId>, run: seq<Cluster>, evs: seq<Event>, j: nat, k: nat, u: NodeId, v: NodeId)
    requires IsRun(ms, run, evs) && j < |run| && k < |run| && u in ms && v in ms
    requires u in run[j].servers && v in run[k].servers
    requires run[k].servers[v].live.role == Leader && run[j].servers[u].live.term < run[k].servers[v].live.term
    ensures Agree(run[j].servers[u].live.log, run[k].servers[v].live.log, run[j].servers[u].live.commit)
  {
    hide IsRun, Basic, AcksOk, VotesOk, CommitsOk, Settled;
    var z := Max(j, k);
    SeenFrom(ms, run, evs, j, z, u);
    SeenFrom(ms, run, evs, k, z, v);
    var a, b := run[j].servers[u].live, run[k].servers[v].live;
    BasicElections(ms, ViewOf(run[z]));
    SettledInLater(ms, ViewOf(run[z]), a.log, a.commit, a.term, b.term, b.log);
  }

  lemma BasicElections(ms: set<NodeId>, s: View)
    requires Basic(ms, s)
    ensures ElectionsOk(ms, s.h)
  {
    hide NodesOk, BallotsOk, SlotTerms, SlotsOk, ElectionsOk, MsgsOk;
  }

  /** State machine safety: any two nodes, at any two moments of any run, hold the
      same log up to every index both knew to be committed. */
  lemma StateMachineSafety(
      ms: set<NodeId>, run: seq<Cluster>, evs: seq<Event>, j: nat, k: nat, u: NodeId, v: NodeId, i: nat)
    requires IsRun(ms, run, evs) && j < |run| && k < |run| && u in ms && v in ms
    requires u in run[j].servers && v in run[k].servers
    requires i <= run[j].servers[u].live.commit && i <= run[k].servers[v].live.commit
    ensures Agree(run[j].servers[u].live.log, run[k].servers[v].live.log, i)
  {
    hide IsRun, Basic, AcksOk, VotesOk, CommitsOk, Settled;
    var z := Max(j, k);
    SeenFrom(ms, run, evs, j, z, u);
    SeenFrom(ms, run, evs, k, z, v);
    var a, b := run[j].servers[u].live, run[k].servers[v].live;
    if i == 0 {
      assert a.log[..1] == b.log[..1];
    } else {
      BasicElections(ms, ViewOf(run[z]));
      SettledAgree(ms, ViewOf(run[z]), a.log, a.commit, a.term, b.log, b.commit, b.term, i);
    }
  }

  /** What nodes hand to their state machines: entries taken for the same index by
      any two nodes, at any two moments, are the same entry. */
  lemma AppliedAgree(
      ms: set<NodeId>, run: seq<Cluster>, evs: seq<Event>, j: nat, k: nat, u: NodeId, v: NodeId, x: nat, y: nat)
    requires IsRun(ms, run, evs) && j < |run| && k < |run| && u in ms && v in ms
    requires u in run[j].servers && v in run[k].servers
    requires var a, b := run[j].servers[u].live, run[k].servers[v].live;
             && a.commit <= LastIndex(a.log) && b.commit <= LastIndex(b.log)
             && x < |Spec.Unapplied(a)| && y < |Spec.Unapplied(b)| && a.lastApplied + x == b.lastApplied + y
    ensures Spec.Unapplied(run[j].servers[u].live)[x] == Spec.Unapplied(run[k].servers[v].live)[y]
    ensures Spec.Unapplied(run[j].servers[u].live)[x].index == run[j].servers[u].live.lastApplied + 1 + x
  {
    hide IsRun, ClusterOk;
    var a, b := run[j].servers[u].live, run[k].servers[v].live;
    var i := a.lastApplied + 1 + x;
    StateMachineSafety(ms, run, evs, j, k, u, v, i);
    AgreeDown(a.log, b.log, i, i);
    RunOk(ms, run, evs, j);
    IndexedLog(ms, run[j], u);
  }

  lemma IndexedLog(ms: set<NodeId>, s: Cluster, v: NodeId)
    requires ClusterOk(ms, s) && v in ms
    ensures Indexed(s.servers[v].live.log)
  {
    hide Inv, Replay;
    assert ServerOk(ms, v, s.servers[v]);
  }

  // ------------------------------------------- committed entries are permanent

  /** A merge or a torn merge never drops what is settled. */
  lemma MergeKeepsSettled(ms: set<NodeId>, s: View, v: NodeId, n: Node, m: Message, c: nat, l: Log)
    requires Inv(ms, s) && Live(ms, s, v, n) && m in s.msgs && Reaches(n, m) && n.stable == LastIndex(n.log)
    requires c < |n.log| && Settled(s.h, n.log, c, n.term)
    requires var (r, st) := Spec.Merge(n.log, n.stable, m.entries); l == n.log || (st < |l| && l <= r)
    ensures Agree(n.log, l, c)
  {
    hide Basic, AcksOk, VotesOk, CommitsOk, ElectionsOk, ToSet, Spec.Merge, AppendOk, Settled, Merged;
    var n0 := Spec.BecomeFollower(n, m.term, m.from);
    FollowerKeeps(ms, s, v, n, m.term, m.from);
    var s1 := WithNode(s, v, Abs(n0));
    AcceptMerges(ms, s1, v, n0, m);
    AcceptFacts(s1.h, m);
    var (r, st) := Spec.Merge(n.log, n.stable, m.entries);
    if l != n.log {
      SettledLater(s.h, n.log, c, n.term, n0.term);
      BasicElections(ms, s1);
      SentinelFirst(ms, s1, v);
      if c > 0 {
        SettledInLeaderLog(ms, s1, n.log, c, n0.term);
      }
      CutKeeps(n.log, s.h.leaderLog[n0.term], m.prevLogIndex + |m.entries|, r, st, l, c);
    }
  }

  lemma SentinelFirst(ms: set<NodeId>, s: View, v: NodeId)
    requires Basic(ms, s) && v in ms
    ensures s.nodes[v].log[0] == SENTINEL
    ensures forall t | t in s.h.leaderLog :: s.h.leaderLog[t][0] == SENTINEL
  {
    hide BallotsOk, SlotTerms, SlotsOk, MsgsOk, Settled, CandidateOk, LeaderOk, Quorum;
    assert NodeOk(ms, s.h, s.msgs, v, s.nodes[v]);
    forall t | t in s.h.leaderLog ensures s.h.leaderLog[t][0] == SENTINEL {
      assert ElectionOk(ms, s.h, t, s.h.elected[t]);
    }
  }

  lemma CutKeeps(l: Log, leader: Log, top: nat, r: Log, st: nat, cut: Log, c: nat)
    requires Merged(l, leader, top, r, st) && st < |cut| && cut <= r
    requires l[0] == leader[0] && c < |l| && (c > 0 ==> Agree(l, leader, c))
    ensures Agree(l, cut, c)
  {
    if c == 0 {
      assert l[..1] == leader[..1];
      assert Agree(l, leader, 0);
    }
    assert Agree(l, leader, c);
    if r == l && st == LastIndex(l) {
      assert cut == l;
    } else {
      assert leader[..c + 1] == cut[..c + 1];
    }
  }

  lemma OtherKeepsLog(n: Node, i: Input)
    requires !(i.Deliver? && i.m.AppendEntries?)
    ensures n.log <= Call(n, i).log
  {
    hide Spec.Merge, Spec.Others, Spec.PeerMap, Spec.AppendMsgs, Spec.VoteRequests, Spec.Grants, Spec.CommitPoint;
  }

  lemma CallKeepsSettled(ms: set<NodeId>, s: View, v: NodeId, n: Node, i: Input, c: nat)
    requires Inv(ms, s) && Live(ms, s, v, n) && !n.dirty && n.stable == LastIndex(n.log)
    requires i.Deliver? ==> i.m in s.msgs && i.m.to == v
    requires c < |n.log| && Settled(s.h, n.log, c, n.term)
    ensures Agree(n.log, Call(n, i).log, c)
  {
    hide Inv, ToSet, Spec.Merge, Reaches, Settled, Spec.Step, Spec.Tick, Spec.Propose;
    if i.Deliver? && i.m.AppendEntries? {
      AppendBatch(n, i.m);
      if Reaches(n, i.m) {
        MergeStays(ms, s, v, n, i.m);
        MergeKeepsSettled(ms, s, v, n, i.m, c, Call(n, i).log);
      }
    } else {
      OtherKeepsLog(n, i);
      AgreePrefix(n.log, Call(n, i).log);
      AgreeDown(n.log, Call(n, i).log, |n.log| - 1, c);
    }
  }

  lemma MergeStays(ms: set<NodeId>, s: View, v: NodeId, n: Node, m: Message)
    requires Inv(ms, s) && Live(ms, s, v, n) && m in s.msgs && Reaches(n, m) && n.stable == LastIndex(n.log)
    ensures var (r, st) := Spec.Merge(n.log, n.stable, m.entries); st < |r|
  {
    hide Inv, ToSet, Spec.Merge, AppendOk;
    var n0 := Spec.BecomeFollower(n, m.term, m.from);
    FollowerKeeps(ms, s, v, n, m.term, m.from);
    AcceptMerges(ms, WithNode(s, v, Abs(n0)), v, n0, m);
  }

  lemma TornKeepsSettled(ms: set<NodeId>, s: Cluster, id: NodeId, i: Input, k: nat, c: nat)
    requires ClusterOk(ms, s) && Enabled(s, id, i) && id in ms
    requires 0 < k < |Batch(Call(s.servers[id].live, i), s.servers[id].persisted)|
    requires var n := s.servers[id].live; c < |n.log| && Settled(s.h, n.log, c, n.term)
    ensures var sv := s.servers[id];
            Agree(sv.live.log, [SENTINEL] + Replay(sv.disk + Batch(Call(sv.live, i), sv.persisted)[..k]).entries, c)
  {
    hide Inv, Spec.Step, Batch, ToSet, Replay, Spec.Merge, Reaches, Indexed, Distinct, Settled, Agree;
    var sv := s.servers[id];
    SmallBatch(sv.live, i);
    ViewLive(ms, s, id);
    TornDisk(ms, s, id, i, k);
    ReachesAppend(sv.live, i.m);
    AppendBatch(sv.live, i.m);
    MergeKeepsSettled(ms, ViewOf(s), id, sv.live, i.m, c,
                      [SENTINEL] + Replay(sv.disk + Batch(Call(sv.live, i), sv.persisted)[..k]).entries);
  }

  /** One event: a server keeps what was settled in its log, and it stays settled. */
  ghost predicate KeepsPrefix(s: Cluster, s': Cluster, u: NodeId, c: nat) {
    && u in s.servers && u in s'.servers
    && Agree(s.servers[u].live.log, s'.servers[u].live.log, c)
    && s.servers[u].live.term <= s'.servers[u].live.term
  }

  lemma ActKeepsPrefix(ms: set<NodeId>, s: Cluster, id: NodeId, i: Input, s': Cluster, c: nat)
    requires ClusterOk(ms, s) && Next(s, Act(id, i), s') && id in ms
    requires var n := s.servers[id].live; c < |n.log| && Settled(s.h, n.log, c, n.term)
    ensures KeepsPrefix(s, s', id, c)
  {
    hide Inv, ToSet, Batch, Replay, Record, Call, Distinct, Indexed, Settled, Agree;
    ViewLive(ms, s, id);
    CallKeepsSettled(ms, ViewOf(s), id, s.servers[id].live, i, c);
    CallShape(s.servers[id].live, i);
  }

  lemma BootKeepsPrefix(ms: set<NodeId>, s: Cluster, id: NodeId, s': Cluster, c: nat)
    requires ClusterOk(ms, s) && Next(s, Restart(id), s') && id in ms
    requires c < |s.servers[id].live.log|
    ensures KeepsPrefix(s, s', id, c)
  {
    hide Inv, ToSet, Replay;
    LogSplit(s.servers[id].live.log);
  }

  lemma CrashKeepsPrefix(ms: set<NodeId>, s: Cluster, id: NodeId, i: Input, k: nat, s': Cluster, c: nat)
    requires ClusterOk(ms, s) && Next(s, Crash(id, i, k), s') && id in ms
    requires var n := s.servers[id].live; c < |n.log| && Settled(s.h, n.log, c, n.term)
    ensures KeepsPrefix(s, s', id, c)
  {
    hide Inv, ToSet, Batch, Replay, Call, Distinct, Indexed, Settled, Agree;
    var sv := s.servers[id];
    var b := Batch(Call(sv.live, i), sv.persisted);
    if k == 0 {
      assert sv.disk + b[..0] == sv.disk;
      BootKeepsPrefix(ms, s, id, s', c);
    } else {
      TornKeepsSettled(ms, s, id, i, k, c);
      TornDisk(ms, s, id, i, k);
      CallShape(sv.live, i);
    }
  }

  lemma EventKeepsPrefix(ms: set<NodeId>, s: Cluster, e: Event, s': Cluster, u: NodeId, c: nat)
    requires ClusterOk(ms, s) && Next(s, e, s') && u in ms
    requires var n := s.servers[u].live; c < |n.log| && Settled(s.h, n.log, c, n.term)
    ensures KeepsPrefix(s, s', u, c) && Settled(s'.h, s'.servers[u].live.log, c, s'.servers[u].live.term)
  {
    hide Inv, ServerOk, ToSet, Batch, Boot, Call, Record, Settled, KeepsPrefix, Grows, Persist;
    NextGrows(ms, s, e, s');
    if e.id == u {
      match e
      case Act(id, i) => ActKeepsPrefix(ms, s, id, i, s', c);
      case Restart(id) => BootKeepsPrefix(ms, s, id, s', c);
      case Crash(id, i, k) => CrashKeepsPrefix(ms, s, id, i, k, s', c);
    } else {
      SamePrefix(s, s', u, c);
    }
    CarrySettled(s, s', u, c);
  }

  lemma SamePrefix(s: Cluster, s': Cluster, u: NodeId, c: nat)
    requires u in s.servers && u in s'.servers && s.servers[u] == s'.servers[u] && c < |s.servers[u].live.log|
    ensures KeepsPrefix(s, s', u, c)
  {
  }

  lemma CarrySettled(s: Cluster, s': Cluster, u: NodeId, c: nat)
    requires KeepsPrefix(s, s', u, c) && Grows(s.h, s'.h)
    requires Settled(s.h, s.servers[u].live.log, c, s.servers[u].live.term)
    ensures Settled(s'.h, s'.servers[u].live.log, c, s'.servers[u].live.term)
  {
    var a, b := s.servers[u].live, s'.servers[u].live;
    SettledGrows(s.h, s'.h, a.log, c, a.term);
    SettledBy(s'.h, b.log, a.log, c, a.term, c);
    SettledLater(s'.h, b.log, c, a.term, b.term);
  }

  lemma {:induction false} SettledForever(
      ms: set<NodeId>, run: seq<Cluster>, evs: seq<Event>, j: nat, k: nat, u: NodeId, c: nat)
    requires IsRun(ms, run, evs) && j <= k < |run| && u in ms && u in run[j].servers
    requires var n := run[j].servers[u].live; c < |n.log| && Settled(run[j].h, n.log, c, n.term)
    ensures u in run[k].servers && Agree(run[j].servers[u].live.log, run[k].servers[u].live.log, c)
    ensures Settled(run[k].h, run[k].servers[u].live.log, c, run[k].servers[u].live.term)
    decreases k
  {
    hide ClusterOk, Next, Init, Settled;
    if j < k {
      SettledForever(ms, run, evs, j, k - 1, u, c);
      RunOk(ms, run, evs, k - 1);
      assert Next(run[k - 1], evs[k - 1], run[k - 1 + 1]);
      EventKeepsPrefix(ms, run[k - 1], evs[k - 1], run[k], u, c);
    }
  }

  /** A node never loses or changes an entry it once knew to be committed, through
      any later truncation, restart or torn Save. */
  lemma CommittedForever(ms: set<NodeId>, run: seq<Cluster>, evs: seq<Event>, j: nat, k: nat, u: NodeId)
    requires IsRun(ms, run, evs) && j <= k < |run| && u in ms
    ensures u in run[j].servers && u in run[k].servers
    ensures Agree(run[j].servers[u].live.log, run[k].servers[u].live.log, run[j].servers[u].live.commit)
  {
    hide IsRun, Inv, Good, Settled, Agree;
    SeenFrom(ms, run, evs, j, j, u);
    SettledForever(ms, run, evs, j, k, u, run[j].servers[u].live.commit);
  }

  // ------------------------------------------------------------ bookkeeping

  /** A leader's counters are in range, so next - 1 never wraps, and a match index
      is the truth about the peer for as long as it stays in the term. */
  lemma BookkeepingSound(ms: set<NodeId>, run: seq<Cluster>, evs: seq<Event>, j: nat, k: nat, u: NodeId, p: NodeId)
    requires IsRun(ms, run, evs) && j <= k < |run| && u in ms && p in ms && p != u
    requires u in run[j].servers && run[j].servers[u].live.role == Leader
    ensures var n := run[j].servers[u].live;
            && p in n.next && p in n.matched
            && 1 <= n.next[p] <= LastIndex(n.log) + 1 && n.matched[p] <= LastIndex(n.log)
            && p in run[k].servers
            && (run[k].servers[p].live.term == n.term ==> Agree(run[k].servers[p].live.log, n.log, n.matched[p]))
  {
    hide IsRun, Inv, Agree, Witnessed, ServerOk, Grows, Acked;
    var n := run[j].servers[u].live;
    RunOk(ms, run, evs, j);
    RunOk(ms, run, evs, k);
    RunGrows(ms, run, evs, j, k);
    PeerFacts(ms, run[j], u, p);
    if run[k].servers[p].live.term == n.term {
      SeenFrom(ms, run, evs, j, k, u);
      AckedLater(ms, run[j], run[k], u, p);
      PeerHolds(ms, run[k], p, n.term, n.matched[p], n.log);
    }
  }

  lemma PeerFacts(ms: set<NodeId>, s: Cluster, u: NodeId, p: NodeId)
    requires ClusterOk(ms, s) && u in ms && p in ms && p != u && s.servers[u].live.role == Leader
    ensures PeerOk(s.msgs, u, Abs(s.servers[u].live), p)
    ensures var n := s.servers[u].live;
            && n.term in s.h.elected && s.h.elected[n.term].leader == u
            && n.term in s.h.leaderLog && s.h.leaderLog[n.term] == n.log
  {
    hide AcksOk, VotesOk, CommitsOk, BallotsOk, SlotTerms, SlotsOk, MsgsOk, ElectionsOk, Good, Settled;
    hide ServerOk, CandidateOk, PeerOk, ToSet;
    assert NodeOk(ms, s.h, s.msgs, u, ViewOf(s).nodes[u]);
  }

  lemma AckedLater(ms: set<NodeId>, s: Cluster, s': Cluster, u: NodeId, p: NodeId)
    requires u in s.servers && PeerOk(s.msgs, u, Abs(s.servers[u].live), p) && Grows(s.h, s'.h) && s.msgs <= s'.msgs
    requires var n := s.servers[u].live;
             && n.term in s.h.elected && s.h.elected[n.term].leader == u
             && n.term in s.h.leaderLog && s.h.leaderLog[n.term] == n.log
    ensures var n := s.servers[u].live;
            && n.term in s'.h.leaderLog && n.log <= s'.h.leaderLog[n.term]
            && (n.matched[p] == 0 || Acked(ViewOf(s'), n.term, p, n.matched[p]))
  {
    hide ToSet;
  }

  lemma PeerHolds(ms: set<NodeId>, s: Cluster, p: NodeId, t: Term, i: nat, l: Log)
    requires ClusterOk(ms, s) && p in ms && s.servers[p].live.term == t
    requires t in s.h.leaderLog && l <= s.h.leaderLog[t] && i < |l|
    requires i == 0 || Acked(ViewOf(s), t, p, i)
    ensures Agree(s.servers[p].live.log, l, i)
  {
    hide Basic, VotesOk, CommitsOk, ServerOk, ToSet;
    SentinelFirst(ms, ViewOf(s), p);
    var log := s.servers[p].live.log;
    if i == 0 {
      assert log[..1] == [SENTINEL] == l[..1];
    } else {
      assert AckHeld(ViewOf(s), t, p, i);
      AgreeExtend(log, l, s.h.leaderLog[t], i);
    }
  }

  /** Every AppendEntries ever sent reports no more committed than it verifies. */
  lemma LeaderCommitBound(ms: set<NodeId>, run: seq<Cluster>, evs: seq<Event>, k: nat, m: Message)
    requires IsRun(ms, run, evs) && k < |run| && m in run[k].msgs && m.AppendEntries?
    ensures m.leaderCommit <= m.prevLogIndex + |m.entries|
  {
    hide IsRun, NodesOk, BallotsOk, SlotTerms, SlotsOk, ElectionsOk, AcksOk, VotesOk, CommitsOk, ServerOk, Settled;
    RunOk(ms, run, evs, k);
    assert MsgOk(ms, ViewOf(run[k]).h, m);
  }

  /** Only an AppendEntries that is accepted raises a follower's commit index. */
  lemma CommitRaise(n: Node, m: Message)
    requires m.AppendEntries? && n.commit < Spec.Step(n, m).commit
    ensures Reaches(n, m) && Spec.Step(n, m).commit <= m.leaderCommit
  {
    hide Spec.Merge;
  }

  /** An accepted message is in the log afterwards, entry by entry. */
  lemma MergeHolds(ms: set<NodeId>, s: View, v: NodeId, n: Node, m: Message)
    requires Inv(ms, s) && Live(ms, s, v, n) && m in s.msgs && Reaches(n, m) && n.stable == LastIndex(n.log)
    ensures Verified(Spec.Merge(n.log, n.stable, m.entries).0, m)
  {
    hide Inv, ToSet, Spec.Merge, AppendOk, Merged;
    var n0 := Spec.BecomeFollower(n, m.term, m.from);
    FollowerKeeps(ms, s, v, n, m.term, m.from);
    var s1 := WithNode(s, v, Abs(n0));
    AcceptMerges(ms, s1, v, n0, m);
    AcceptFacts(s1.h, m);
    var (r, st) := Spec.Merge(n.log, n.stable, m.entries);
    MergedAgrees(n.log, s.h.leaderLog[m.term], m.prevLogIndex + |m.entries|, r, st);
    AgreeVerified(s1.h, r, m);
  }

  lemma AgreeVerified(h: History, l: Log, m: Message)
    requires m.AppendEntries? && AppendOk(h, m) && Agree(l, h.leaderLog[m.term], m.prevLogIndex + |m.entries|)
    ensures Verified(l, m)
  {
    hide Settled;
    var top, leader := m.prevLogIndex + |m.entries|, h.leaderLog[m.term];
    assert l[m.prevLogIndex] == l[..top + 1][m.prevLogIndex];
    assert l[m.prevLogIndex + 1..top + 1] == l[..top + 1][m.prevLogIndex + 1..];
    assert leader[m.prevLogIndex + 1..top + 1] == leader[..top + 1][m.prevLogIndex + 1..];
  }

  /** The log holds what the message says: its previous entry and all its entries. */
  ghost predicate Verified(l: Log, m: Message) {
    && m.AppendEntries? && m.prevLogIndex + |m.entries| < |l|
    && l[m.prevLogIndex].term == m.prevLogTerm
    && l[m.prevLogIndex + 1..m.prevLogIndex + 1 + |m.entries|] == m.entries
  }

  /** When an AppendEntries raises a node's commit index, the index stays within the
      part of the log that this message verified against the leader. */
  lemma CommitWithinVerified(
      ms: set<NodeId>, run: seq<Cluster>, evs: seq<Event>, j: nat, u: NodeId, m: Message)
    requires IsRun(ms, run, evs) && j < |evs| && u in ms && evs[j] == Act(u, Deliver(m)) && m.AppendEntries?
    requires u in run[j].servers && u in run[j + 1].servers
    requires run[j].servers[u].live.commit < run[j + 1].servers[u].live.commit
    ensures var n := run[j + 1].servers[u].live;
            n.commit <= m.prevLogIndex + |m.entries| && Verified(n.log, m)
  {
    hide Inv, Init, Record, Batch, Boot, ToSet, Spec.Step, Reaches, Verified, Spec.Merge, Distinct, Replay;
    RunOk(ms, run, evs, j);
    assert Next(run[j], evs[j], run[j + 1]);
    var n := run[j].servers[u].live;
    assert ServerOk(ms, u, run[j].servers[u]);
    ViewLive(ms, run[j], u);
    CommitRaise(n, m);
    LeaderCommitBound(ms, run, evs, j, m);
    ReachesAppend(n, m);
    AppendBatch(n, m);
    MergeHolds(ms, ViewOf(run[j]), u, n, m);
  }

  /** Between restarts no node's commit index ever falls. */
  lemma CommitNeverFalls(ms: set<NodeId>, run: seq<Cluster>, evs: seq<Event>, j: nat, u: NodeId)
    requires IsRun(ms, run, evs) && j < |evs| && u in ms && (evs[j].id == u ==> evs[j].Act?)
    ensures u in run[j].servers && u in run[j + 1].servers
    ensures run[j].servers[u].live.commit <= run[j + 1].servers[u].live.commit
  {
    hide Inv, Init, ServerOk, Call, Record, Batch, Boot, ToSet;
    RunOk(ms, run, evs, j);
    assert Next(run[j], evs[j], run[j + 1]);
    if evs[j].id == u {
      ViewLive(ms, run[j], u);
      CommitForward(ms, ViewOf(run[j]), u, run[j].servers[u].live, evs[j].input);
    }
  }

  /** After every event of every run the disk replays to exactly the term, the
      vote and the log of the live node. */
  lemma DiskIsTruth(ms: set<NodeId>, run: seq<Cluster>, evs: seq<Event>, j: nat, u: NodeId)
    requires IsRun(ms, run, evs) && j < |run| && u in ms
    ensures u in run[j].servers
    ensures var n := run[j].servers[u].live; Replay(run[j].servers[u].disk) == Durable(n.term, n.vote, n.log[1..])
  {
    hide IsRun, Inv, Replay;
    RunOk(ms, run, evs, j);
    assert ServerOk(ms, u, run[j].servers[u]);
  }
}
