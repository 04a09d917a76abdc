/** Whole runs of a cluster of Raft nodes with disks.

    One action is a core call followed by Save, after which the messages of the
    call become visible. A restart replays the disk. A crash may also hit in the
    middle of a Save, leaving any proper prefix of its records on the disk; the
    messages of that call are then never sent. (A crash after a complete Save is an
    action followed by a restart, with messages that may never be delivered.) */
module RaftCluster {
  import opened RaftTypes
  import Spec = RaftSpec
  import opened RaftProtocol
  import opened RaftMoves
  import opened RaftRefine
  import opened RaftAppend
  import opened RaftCalls
  import opened Durability

  datatype Server = Server(live: Node, disk: seq<Rec>, persisted: nat)

  datatype Cluster = Cluster(servers: map<NodeId, Server>, msgs: set<Message>, h: History)

  datatype Input = Deliver(m: Message) | Clock | Client(data: Bytes) | Apply

  datatype Event = Act(id: NodeId, input: Input) | Restart(id: NodeId) | Crash(id: NodeId, input: Input, records: nat)

  function Call(n: Node, i: Input): Node {
    match i
    case Deliver(m) => Spec.Step(n, m)
    case Clock => Spec.Tick(n)
    case Client(data) => Spec.Propose(n, data)
    case Apply => n.(lastApplied := n.commit)
  }

  function Persist(sv: Server, n: Node): Server {
    Server(Saved(n).(out := []), sv.disk + Batch(n, sv.persisted), LastIndex(n.log))
  }

  function Boot(c: Config, disk: seq<Rec>): Server {
    Server(Reopened(c, Replay(disk)), disk, PersistedIndex(Replay(disk)))
  }

  ghost predicate Enabled(s: Cluster, id: NodeId, i: Input) {
    id in s.servers && (i.Deliver? ==> i.m in s.msgs && i.m.to == id)
  }

  ghost predicate Init(ms: set<NodeId>, s: Cluster) {
    && 0 !in ms && s.servers.Keys == ms
    && (forall v | v in ms :: ConfigOk(ms, v, s.servers[v].live.config)
                              && s.servers[v] == Server(Spec.Fresh(s.servers[v].live.config), [], 0))
    && s.msgs == {} && s.h == History({}, map[], map[], map[], {})
  }

  ghost predicate Next(s: Cluster, e: Event, s': Cluster) {
    match e
    case Act(id, i) =>
      && Enabled(s, id, i)
      && var n := Call(s.servers[id].live, i);
         s' == Cluster(s.servers[id := Persist(s.servers[id], n)], s.msgs + Sent(n.out),
                       Record(s.servers.Keys, s.h, id, Abs(s.servers[id].live), Abs(n)))
    case Restart(id) =>
      && id in s.servers
      && s' == s.(servers := s.servers[id := Boot(s.servers[id].live.config, s.servers[id].disk)])
    case Crash(id, i, k) =>
      && Enabled(s, id, i)
      && var b := Batch(Call(s.servers[id].live, i), s.servers[id].persisted);
         && k < |b|
         && s' == s.(servers := s.servers[id := Boot(s.servers[id].live.config, s.servers[id].disk + b[..k])])
  }

  // --------------------------------------------------------------- invariant

  /** At rest the disk says exactly what the node knows. */
  ghost predicate ServerOk(ms: set<NodeId>, v: NodeId, sv: Server) {
    var n := sv.live;
    && ConfigOk(ms, v, n.config)
    && n.out == [] && Distinct(n.votes) && !n.dirty
    && n.lastApplied <= n.commit
    && n.stable == LastIndex(n.log) == sv.persisted
    && Indexed(n.log)
    && Replay(sv.disk) == Durable(n.term, n.vote, n.log[1..])
  }

  ghost function ViewOf(s: Cluster): View {
    View(map v | v in s.servers :: Abs(s.servers[v].live), s.msgs, s.h)
  }

  ghost predicate ClusterOk(ms: set<NodeId>, s: Cluster) {
    && s.servers.Keys == ms
    && (forall v | v in ms :: ServerOk(ms, v, s.servers[v]))
    && Inv(ms, ViewOf(s))
  }

  lemma ServerInStep(ms: set<NodeId>, v: NodeId, sv: Server)
    requires ServerOk(ms, v, sv)
    ensures InStep(sv.live, sv.persisted, Replay(sv.disk))
  {
    var n := sv.live;
    assert n.log[1..n.stable + 1] == n.log[1..] == n.log[1..][..n.stable];
    forall i | 0 <= i < |n.log[1..]| ensures n.log[1..][i].index == i + 1 {
      assert n.log[1..][i] == n.log[i + 1];
    }
  }

  ghost predicate Shape(n: Node, n': Node) {
    n'.config == n.config && Distinct(n'.votes) && n.term <= n'.term && n'.lastApplied == n.lastApplied
  }

  lemma SameTermShape(n: Node, m: Message)
    requires Distinct(n.votes)
    ensures Shape(n, Spec.StepSameTerm(n, m))
  {
    hide Distinct, Spec.RecordVote, Spec.Accept, Spec.AppendMsgs, Spec.PeerMap, Spec.Grants, Spec.CommitPoint;
    hide Spec.Others;
    if m.RequestVoteResp? {
      RecordVoteSet(n.votes, m.from);
    } else if m.AppendEntries? {
      AcceptShape(n, m);
      AcceptShape(Spec.BecomeFollower(n, m.term, m.from), m);
    }
  }

  lemma AcceptShape(n: Node, m: Message)
    requires m.AppendEntries?
    ensures var n1 := Spec.HandleAppendEntries(n, m);
            n1.config == n.config && n1.votes == n.votes && n1.term == n.term && n1.lastApplied == n.lastApplied
  {
    hide Spec.Merge;
  }

  lemma TickShape(n: Node)
    requires Distinct(n.votes)
    ensures Shape(n, Spec.Tick(n))
  {
    hide Spec.AppendMsgs, Spec.PeerMap, Spec.Others, Spec.VoteRequests;
  }

  /** What a call leaves alone or only moves forward. */
  lemma CallShape(n: Node, i: Input)
    requires Distinct(n.votes)
    ensures var n' := Call(n, i);
            && n'.config == n.config && Distinct(n'.votes) && n.term <= n'.term
            && n'.lastApplied == (if i.Apply? then n.commit else n.lastApplied)
  {
    hide Distinct, Spec.StepSameTerm, Spec.Tick, Spec.CommitPoint;
    match i
    case Deliver(m) =>
      SameTermShape(n, m);
      SameTermShape(Spec.BecomeFollower(n, m.term, if m.AppendEntries? then m.from else 0), m);
    case Clock => TickShape(n);
    case Client(data) =>
    case Apply =>
  }

  lemma CommitMostly(n: Node, i: Input)
    requires !(i.Deliver? && i.m.AppendEntries?)
    ensures n.commit <= Call(n, i).commit
  {
    hide Spec.Merge, Spec.Others, Spec.PeerMap, Spec.AppendMsgs, Spec.VoteRequests, Spec.Grants, Spec.Committable;
  }

  /** No call lowers the commit index: what a leader reports as committed is
      within what it sends along. */
  lemma CommitForward(ms: set<NodeId>, s: View, v: NodeId, n: Node, i: Input)
    requires Inv(ms, s) && Live(ms, s, v, n)
    requires i.Deliver? ==> i.m in s.msgs && i.m.to == v
    ensures n.commit <= Call(n, i).commit
  {
    hide Inv, Spec.Merge, AppendOk, ToSet;
    if i.Deliver? && i.m.AppendEntries? {
      var m := i.m;
      if m.term >= n.term && !(m.term == n.term && n.role == Leader) {
        var n0 := Spec.BecomeFollower(n, m.term, m.from);
        FollowerKeeps(ms, s, v, n, m.term, m.from);
        var s1 := WithNode(s, v, Abs(n0));
        if Accepts(n0, m) {
          LoopKeeps(ms, s1, v, n0, m);
          AcceptFacts(s1.h, m);
        }
      }
    } else {
      CommitMostly(n, i);
    }
  }

  // ---------------------------------------------------------- complete calls

  lemma CallKeeps(ms: set<NodeId>, s: View, v: NodeId, n: Node, i: Input)
    requires Inv(ms, s) && Live(ms, s, v, n)
    requires i.Deliver? ==> i.m in s.msgs && i.m.to == v
    ensures Inv(ms, After(s, v, Call(n, i)))
  {
    hide Inv, ToSet, Record, Spec.Step, Spec.Tick, Spec.Propose;
    match i
    case Deliver(m) => StepKeeps(ms, s, v, n, m);
    case Clock => TickKeeps(ms, s, v, n);
    case Client(data) => ProposeKeeps(ms, s, v, n, data);
    case Apply => IdleKeeps(ms, s, v, Call(n, i));
  }

  lemma AppendFollows(ll: map<Term, Log>, l: Log, m: Message)
    requires m.AppendEntries? && Good(ll, l) && m.prevLogIndex + |m.entries| < |l|
    requires m.entries == l[m.prevLogIndex + 1..m.prevLogIndex + 1 + |m.entries|]
    ensures Follows(m)
  {
    forall i | 0 <= i < |m.entries| ensures m.entries[i].index == m.prevLogIndex + 1 + i {
      assert m.entries[i] == l[m.prevLogIndex + 1 + i];
    }
  }

  /** The entries of a message in flight are numbered on from its previous index. */
  lemma MsgFollows(ms: set<NodeId>, s: View, m: Message)
    requires MsgsOk(ms, s) && ElectionsOk(ms, s.h) && m in s.msgs && m.AppendEntries?
    ensures Follows(m)
  {
    hide Quorum, Settled, Good, Follows;
    assert MsgOk(ms, s.h, m);
    assert ElectionOk(ms, s.h, m.term, s.h.elected[m.term]);
    AppendFollows(s.h.leaderLog, s.h.leaderLog[m.term], m);
  }

  lemma CallTame(ms: set<NodeId>, s: View, n: Node, i: Input)
    requires Basic(ms, s)
    requires i.Deliver? ==> i.m in s.msgs
    requires Indexed(n.log) && n.stable <= LastIndex(n.log)
    ensures Tame(n, Call(n, i))
  {
    hide NodesOk, BallotsOk, SlotTerms, SlotsOk, MsgsOk, ElectionsOk, Tame, Indexed, Spec.Step, Spec.Tick, Spec.Propose;
    match i
    case Deliver(m) =>
      if m.AppendEntries? {
        MsgFollows(ms, s, m);
      }
      StepTame(n, m);
    case Clock => TickTame(n);
    case Client(data) => ProposeTame(n, data);
    case Apply => ApplyTame(n);
  }

  lemma ApplyTame(n: Node)
    requires Indexed(n.log) && n.stable <= LastIndex(n.log)
    ensures Tame(n, n.(lastApplied := n.commit))
  {
  }

  lemma ViewLive(ms: set<NodeId>, s: Cluster, v: NodeId)
    requires s.servers.Keys == ms && v in ms && ServerOk(ms, v, s.servers[v])
    ensures Live(ms, ViewOf(s), v, s.servers[v].live)
  {
    hide Replay, Indexed, ToSet;
  }

  lemma ViewMove(s: Cluster, id: NodeId, sv: Server)
    requires id in s.servers
    ensures ViewOf(s.(servers := s.servers[id := sv])) == WithNode(ViewOf(s), id, Abs(sv.live))
    ensures ViewOf(s).nodes.Keys == s.servers.Keys && ViewOf(s).nodes[id] == Abs(s.servers[id].live)
  {
    hide ToSet;
    assert ViewOf(s.(servers := s.servers[id := sv])).nodes == ViewOf(s).nodes[id := Abs(sv.live)];
  }

  /** Saving after a call leaves the server at rest again. */
  lemma PersistOk(ms: set<NodeId>, s: View, v: NodeId, sv: Server, i: Input)
    requires Inv(ms, s) && ServerOk(ms, v, sv) && Live(ms, s, v, sv.live)
    requires i.Deliver? ==> i.m in s.msgs && i.m.to == v
    ensures ServerOk(ms, v, Persist(sv, Call(sv.live, i)))
  {
    hide AcksOk, VotesOk, CommitsOk, Basic, Replay, Batch, Call, Tame, Distinct, ToSet;
    var n, n' := sv.live, Call(sv.live, i);
    ServerInStep(ms, v, sv);
    CallTame(ms, s, n, i);
    TameInStep(n, n', sv.persisted, Replay(sv.disk));
    SaveRefines(n', sv.persisted, sv.disk);
    CallShape(n, i);
    CommitForward(ms, s, v, n, i);
  }

  lemma ActKeeps(ms: set<NodeId>, s: Cluster, id: NodeId, i: Input, s': Cluster)
    requires ClusterOk(ms, s) && Next(s, Act(id, i), s')
    ensures ClusterOk(ms, s')
  {
    hide Inv, ServerOk, Record, ToSet, Batch, Call;
    var n := Call(s.servers[id].live, i);
    ViewLive(ms, s, id);
    CallKeeps(ms, ViewOf(s), id, s.servers[id].live, i);
    PersistOk(ms, ViewOf(s), id, s.servers[id], i);
    ViewMove(s, id, Persist(s.servers[id], n));
    assert Abs(n) == Abs(Persist(s.servers[id], n).live);
    assert ViewOf(s') == After(ViewOf(s), id, n);
  }

  // ----------------------------------------------------- restarts and crashes

  lemma BootOk(ms: set<NodeId>, v: NodeId, c: Config, disk: seq<Rec>)
    requires ConfigOk(ms, v, c) && Contiguous(Replay(disk).entries)
    ensures ServerOk(ms, v, Boot(c, disk))
    ensures var d := Replay(disk);
            Abs(Boot(c, disk).live) == Replica(Follower, d.term, d.vote, [SENTINEL] + d.entries, 0, {}, map[], map[])
  {
    hide Replay;
    var d := Replay(disk);
    ReopenInStep(c, d);
    assert ([SENTINEL] + d.entries)[1..] == d.entries;
  }

  lemma LogSplit(l: Log)
    requires Indexed(l)
    ensures [SENTINEL] + l[1..] == l && Contiguous(l[1..])
  {
    forall i | 0 <= i < |l[1..]| ensures l[1..][i].index == i + 1 {
      assert l[1..][i] == l[i + 1];
    }
  }

  /** Losing a Save before its first record is a plain restart. */
  lemma RebootKeeps(ms: set<NodeId>, s: Cluster, id: NodeId, disk: seq<Rec>)
    requires ClusterOk(ms, s) && id in ms && disk == s.servers[id].disk
    ensures ClusterOk(ms, s.(servers := s.servers[id := Boot(s.servers[id].live.config, disk)]))
  {
    hide Inv, ToSet, Replay;
    var n := s.servers[id].live;
    LogSplit(n.log);
    hide Indexed;
    BootOk(ms, id, n.config, disk);
    ViewMove(s, id, Boot(n.config, disk));
    RestartKeeps(ms, ViewOf(s), id);
  }

  lemma NoEntries(n: Node, persisted: nat)
    requires n.stable == LastIndex(n.log) == persisted
    ensures |Batch(n, persisted)| <= 1
  {
  }

  lemma OtherBatch(n: Node, i: Input)
    requires !n.dirty && n.stable == LastIndex(n.log) && !(i.Deliver? && i.m.AppendEntries?)
    ensures |Batch(Call(n, i), LastIndex(n.log))| <= 1
  {
    hide Spec.Merge, Spec.Others, Spec.PeerMap, Spec.AppendMsgs, Spec.VoteRequests, Spec.Grants;
    hide Spec.CommitPoint, Batch;
    match i
    case Deliver(m) => NoEntries(Spec.Step(n, m), LastIndex(n.log));
    case Clock => NoEntries(Spec.Tick(n), LastIndex(n.log));
    case Apply => NoEntries(Call(n, i), LastIndex(n.log));
    case Client(data) =>
      if n.role == Leader {
        OneEntry(Spec.Propose(n, data), LastIndex(n.log));
      } else {
        NoEntries(n, LastIndex(n.log));
      }
  }

  lemma OneEntry(n: Node, persisted: nat)
    requires !n.dirty && n.stable == persisted && LastIndex(n.log) == persisted + 1
    ensures |Batch(n, persisted)| == 1
  {
  }

  /** An AppendEntries that reaches the log: v follows the sender and accepts. */
  ghost predicate Reaches(n: Node, m: Message) {
    && m.AppendEntries? && m.term >= n.term && !(m.term == n.term && n.role == Leader)
    && Accepts(Spec.BecomeFollower(n, m.term, m.from), m)
  }

  lemma AppendBatch(n: Node, m: Message)
    requires !n.dirty && n.stable == LastIndex(n.log) && m.AppendEntries?
    ensures var n' := Spec.Step(n, m);
            if Reaches(n, m) then
              && Spec.BecomeFollower(n, m.term, m.from).term == n'.term
              && Spec.BecomeFollower(n, m.term, m.from).vote == n'.vote
              && (n'.log, n'.stable) == Spec.Merge(n.log, n.stable, m.entries)
            else n'.log == n.log && n'.stable == n.stable
  {
    hide Spec.Merge;
  }

  /** Only an accepted AppendEntries makes Save write more than one record. */
  lemma SmallBatch(n: Node, i: Input)
    requires !n.dirty && n.stable == LastIndex(n.log)
    requires |Batch(Call(n, i), LastIndex(n.log))| > 1
    ensures i.Deliver? && Reaches(n, i.m)
  {
    hide Batch, Spec.Step, Spec.Tick, Spec.Propose, Reaches;
    if i.Deliver? && i.m.AppendEntries? {
      AppendBatch(n, i.m);
      if !Reaches(n, i.m) {
        NoEntries(Call(n, i), LastIndex(n.log));
      }
    } else {
      OtherBatch(n, i);
    }
  }

  /** The log a torn Save leaves behind is one the protocol allows. */
  lemma TornLog(ms: set<NodeId>, s: View, v: NodeId, n: Node, m: Message, l: Log)
    requires Inv(ms, s) && Live(ms, s, v, n) && n.role == Follower
    requires m.AppendEntries? && m in s.msgs && m.term == n.term && Accepts(n, m) && n.stable == LastIndex(n.log)
    requires var (r, st) := Spec.Merge(n.log, n.stable, m.entries); l == n.log || (st < |l| && l <= r)
    ensures Inv(ms, WithNode(s, v, s.nodes[v].(log := l)))
  {
    hide Inv, Merged, Spec.Merge, AppendOk, ToSet;
    if l == n.log {
      assert WithNode(s, v, s.nodes[v].(log := l)) == s;
    } else {
      var (r, st) := Spec.Merge(n.log, n.stable, m.entries);
      AcceptMerges(ms, s, v, n, m);
      AcceptFacts(s.h, m);
      CutAdoptable(s, v, m.prevLogIndex + |m.entries|, r, st, l);
      hide Adoptable;
      Adopt(ms, s, v, l);
    }
  }

  lemma TornView(ms: set<NodeId>, s: View, v: NodeId, n: Node, m: Message, l: Log)
    requires Inv(ms, s) && Live(ms, s, v, n) && m in s.msgs && Reaches(n, m) && n.stable == LastIndex(n.log)
    requires var (r, st) := Spec.Merge(n.log, n.stable, m.entries); l == n.log || (st < |l| && l <= r)
    ensures var n0 := Spec.BecomeFollower(n, m.term, m.from);
            Inv(ms, WithNode(s, v, Replica(Follower, n0.term, n0.vote, l, 0, {}, map[], map[])))
  {
    hide Inv, ToSet, Spec.Merge;
    var n0 := Spec.BecomeFollower(n, m.term, m.from);
    FollowerKeeps(ms, s, v, n, m.term, m.from);
    var s1 := WithNode(s, v, Abs(n0));
    TornLog(ms, s1, v, n0, m, l);
    var s2 := WithNode(s1, v, s1.nodes[v].(log := l));
    RestartKeeps(ms, s2, v);
    assert WithNode(s2, v, Replica(Follower, n0.term, n0.vote, l, 0, {}, map[], map[]))
        == WithNode(s, v, Replica(Follower, n0.term, n0.vote, l, 0, {}, map[], map[]));
  }

  /** A crash inside a Save of at least two records, after at least one. */
  lemma TornKeeps(ms: set<NodeId>, s: Cluster, id: NodeId, i: Input, k: nat)
    requires ClusterOk(ms, s) && Enabled(s, id, i)
    requires 0 < k < |Batch(Call(s.servers[id].live, i), s.servers[id].persisted)|
    ensures var sv := s.servers[id];
            var disk := sv.disk + Batch(Call(sv.live, i), sv.persisted)[..k];
            ClusterOk(ms, s.(servers := s.servers[id := Boot(sv.live.config, disk)]))
  {
    hide Inv, Spec.Step, Batch, ToSet, Replay, Spec.Merge, Reaches, Indexed, Boot, Spec.BecomeFollower, Distinct;
    var sv := s.servers[id];
    var n, n' := sv.live, Call(sv.live, i);
    var disk := sv.disk + Batch(n', sv.persisted)[..k];
    SmallBatch(n, i);
    ViewLive(ms, s, id);
    TornDisk(ms, s, id, i, k);
    ReachesAppend(n, i.m);
    AppendBatch(n, i.m);
    TornView(ms, ViewOf(s), id, n, i.m, [SENTINEL] + Replay(disk).entries);
    BootOk(ms, id, n.config, disk);
    ViewMove(s, id, Boot(n.config, disk));
  }

  lemma ReachesAppend(n: Node, m: Message)
    requires Reaches(n, m)
    ensures m.AppendEntries?
  {
  }

  /** What is on the disk after the torn Save. */
  lemma TornDisk(ms: set<NodeId>, s: Cluster, id: NodeId, i: Input, k: nat)
    requires ClusterOk(ms, s) && Enabled(s, id, i)
    requires 0 < k < |Batch(Call(s.servers[id].live, i), s.servers[id].persisted)|
    ensures var sv := s.servers[id];
            var n' := Call(sv.live, i);
            var d := Replay(sv.disk + Batch(n', sv.persisted)[..k]);
            && d.term == n'.term && d.vote == n'.vote && Contiguous(d.entries)
            && ([SENTINEL] + d.entries == sv.live.log
                || (n'.stable <= |d.entries| && [SENTINEL] + d.entries <= n'.log))
  {
    hide AcksOk, VotesOk, CommitsOk, Basic, Call, Batch, ToSet, Replay, Tame, Distinct;
    var sv := s.servers[id];
    var n' := Call(sv.live, i);
    ServerInStep(ms, id, sv);
    CallTame(ms, ViewOf(s), sv.live, i);
    TameInStep(sv.live, n', sv.persisted, Replay(sv.disk));
    SaveTorn(n', sv.persisted, sv.disk, k);
    LogSplit(sv.live.log);
    LogSplit(n'.log);
    var d := Replay(sv.disk + Batch(n', sv.persisted)[..k]);
    if d.entries != sv.live.log[1..] {
      assert d.entries == n'.log[1..][..|d.entries|];
    }
  }

  /** Every event of a run keeps the invariant. */
  lemma NextKeeps(ms: set<NodeId>, s: Cluster, e: Event, s': Cluster)
    requires ClusterOk(ms, s) && Next(s, e, s')
    ensures ClusterOk(ms, s')
  {
    hide ClusterOk, Batch, Call, Boot;
    match e
    case Act(id, i) => ActKeeps(ms, s, id, i, s');
    case Restart(id) =>
      KnownServer(ms, s, id);
      RebootKeeps(ms, s, id, s.servers[id].disk);
    case Crash(id, i, k) =>
      KnownServer(ms, s, id);
      if k == 0 {
        var sv := s.servers[id];
        assert sv.disk + Batch(Call(sv.live, i), sv.persisted)[..0] == sv.disk;
        RebootKeeps(ms, s, id, s.servers[id].disk);
      } else {
        TornKeeps(ms, s, id, i, k);
      }
  }

  lemma KnownServer(ms: set<NodeId>, s: Cluster, id: NodeId)
    requires ClusterOk(ms, s) && id in s.servers
    ensures id in ms
  {
    hide Inv, ServerOk;
  }

  lemma FreshNodeOk(ms: set<NodeId>, h: History, v: NodeId)
    ensures NodeOk(ms, h, {}, v, Replica(Follower, 0, 0, [SENTINEL], 0, {}, map[], map[]))
  {
  }

  lemma InitView(ms: set<NodeId>, s: View)
    requires 0 !in ms && s.nodes.Keys == ms && s.msgs == {} && s.h == History({}, map[], map[], map[], {})
    requires forall v | v in ms :: s.nodes[v] == Replica(Follower, 0, 0, [SENTINEL], 0, {}, map[], map[])
    ensures Inv(ms, s)
  {
    hide NodeOk, Carries;
    forall v | v in ms ensures NodeOk(ms, s.h, s.msgs, v, s.nodes[v]) {
      FreshNodeOk(ms, s.h, v);
    }
  }

  lemma InitOk(ms: set<NodeId>, s: Cluster)
    requires Init(ms, s)
    ensures ClusterOk(ms, s)
  {
    hide Inv;
    forall v | v in ms ensures ServerOk(ms, v, s.servers[v]) {
      assert [SENTINEL][1..] == [];
    }
    InitView(ms, ViewOf(s));
  }
}
