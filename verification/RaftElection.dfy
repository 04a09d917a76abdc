/** When votes are given and elections are won: the other side of election safety.
    The conditions are stated on the logs and on the membership. */
module RaftElection {
  import opened RaftTypes
  import Spec = RaftSpec
  import opened RaftGrowth
  import opened RaftRefine
  import opened RaftCalls

  // ----------------------------------------------------------------- voting

  /** The vote f still has for c: c is in a later term, or in f's own term and f has
      voted for nobody else. */
  ghost predicate Free(f: Node, c: Node) {
    f.term < c.term || (f.term == c.term && (f.vote == 0 || f.vote == c.config.id))
  }

  /** What c asks of node p. */
  function Request(c: Node, p: NodeId): Message {
    RequestVote(c.config.id, p, c.term, LastIndex(c.log), LastTerm(c.log))
  }

  /** A vote is given exactly if it is free and the candidate's log is at least as
      up to date; the answer says so, and a vote given is marked for saving. */
  lemma VoteAnswer(f: Node, c: Node)
    requires f.term <= c.term
    ensures var f1 := Spec.Step(f, Request(c, f.config.id));
            var granted := Free(f, c) && UpToDate(c.log, f.log);
            && f1.out == f.out + [RequestVoteResp(f.config.id, c.config.id, c.term, granted)]
            && f1.term == c.term && f1.log == f.log && f1.commit == f.commit
            && (granted ==> f1.vote == c.config.id && f1.dirty && f1.electionElapsed == 0)
            && (!granted ==> f1.vote == if f.term < c.term then 0 else f.vote)
            && (f.term < c.term ==> f1.role == Follower && f1.dirty && f1.leader == 0)
            && (f.term == c.term ==> f1.role == f.role && f1.leader == f.leader)
            && (f.term == c.term && !granted ==> f1 == f.(out := f1.out))
  {
  }

  ghost predicate Ordered(l: Log) { forall i, j | 0 <= i <= j < |l| :: l[i].term <= l[j].term }

  /** A candidate that holds the voter's whole log is at least as up to date. */
  lemma LongerIsUpToDate(c: Log, f: Log)
    requires f <= c && Ordered(c)
    ensures UpToDate(c, f)
  {
    assert f[|f| - 1] == c[|f| - 1];
  }

  /** A request from an earlier term is refused with the later term. */
  lemma StaleRequest(f: Node, m: Message)
    requires m.term < f.term && (m.RequestVote? || m.AppendEntries?)
    ensures var f1 := Spec.Step(f, m);
            && f1 == f.(out := f1.out)
            && f1.out == f.out + [if m.RequestVote? then RequestVoteResp(f.config.id, m.from, f.term, false)
                                  else AppendEntriesResp(f.config.id, m.from, f.term, false, 0)]
  {
  }

  /** A response from an earlier term changes nothing. */
  lemma StaleResponse(n: Node, m: Message)
    requires m.term < n.term && (m.RequestVoteResp? || m.AppendEntriesResp?)
    ensures Spec.Step(n, m) == n
  {
  }

  /** A response from a later term only makes the node step down into that term. */
  lemma LaterResponse(n: Node, m: Message)
    requires m.term > n.term && (m.RequestVoteResp? || m.AppendEntriesResp?)
    ensures Spec.Step(n, m)
            == n.(term := m.term, vote := 0, dirty := true, role := Follower, leader := 0, electionElapsed := 0)
  {
  }

  // ------------------------------------------------------------- candidates

  lemma {:induction false} OthersCount(id: NodeId, ps: seq<NodeId>)
    requires Distinct(ps)
    ensures |Spec.Others(id, ps)| == if id in ps then |ps| - 1 else |ps|
    decreases |ps|
  {
    if ps != [] {
      var k := |ps| - 1;
      assert ps == ps[..k] + [ps[k]];
      OthersCount(id, ps[..k]);
    }
  }

  /** A node whose election timeout has passed stands in the next term with its own
      vote, and asks every other member once. */
  lemma Stands(ms: set<NodeId>, v: NodeId, n: Node)
    requires ConfigOk(ms, v, n.config) && |ms| > 1
    requires n.role != Leader && n.electionElapsed + 1 >= n.config.electionTimeout
    ensures var c := Spec.Tick(n);
            && c.role == Candidate && c.term == n.term + 1 && c.vote == v && c.votes == [v] && c.dirty
            && c.log == n.log && c.commit == n.commit && c.config == n.config
            && c.electionElapsed == 0 && c.leader == 0
            && n.out <= c.out && |c.out| == |n.out| + |ms| - 1
            && forall p | p in ms && p != v :: Request(c, p) in c.out[|n.out|..]
  {
    hide Spec.Others, Spec.VoteRequests;
    var n1 := Spec.Campaigning(n.(electionElapsed := n.electionElapsed + 1));
    var others := Spec.Others(v, n.config.peers);
    MembersCard(ms, v, n.config);
    OthersCount(v, n.config.peers);
    var c := Spec.Tick(n);
    assert c == n1.(out := n.out + Spec.VoteRequests(n1, others));
    RequestsAre(n1, others);
    assert c.out[|n.out|..] == Spec.VoteRequests(n1, others);
    forall p | p in ms && p != v ensures Request(c, p) in c.out[|n.out|..] {
      OthersAre(v, n.config.peers, p);
    }
  }

  lemma RequestsAre(n: Node, ps: seq<NodeId>)
    ensures |Spec.VoteRequests(n, ps)| == |ps|
    ensures forall p | p in ps :: Request(n, p) in Spec.VoteRequests(n, ps)
  {
    var rs := Spec.VoteRequests(n, ps);
    forall p | p in ps ensures Request(n, p) in rs {
      var i :| 0 <= i < |ps| && ps[i] == p;
      assert rs[i] == Request(n, p);
    }
  }

  /** The candidate after granting replies from ps, in order. */
  function Ballots(c: Node, ps: seq<NodeId>): Node {
    if ps == [] then c
    else
      Spec.Step(Ballots(c, ps[..|ps| - 1]), RequestVoteResp(ps[|ps| - 1], c.config.id, c.term, true))
  }

  /** A candidate wins exactly when, with its own, it has the votes of more than half
      of the members; however many more arrive, it stays leader of that term. */
  lemma {:induction false} MajorityWins(c: Node, ps: seq<NodeId>)
    requires c.role == Candidate && c.votes == [c.config.id] && Distinct(ps) && c.config.id !in ps
    requires |c.config.peers| > 1
    ensures var l := Ballots(c, ps);
            && l.term == c.term && l.log == c.log && l.vote == c.vote && l.config == c.config && l.commit == c.commit
            && l.role == (if 2 * (1 + |ps|) > |c.config.peers| then Leader else Candidate)
            && (l.role == Candidate ==> l == c.(votes := [c.config.id] + ps))
    decreases |ps|
  {
    if ps == [] {
      assert [c.config.id] + ps == c.votes;
    } else {
      var k := |ps| - 1;
      assert ps == ps[..k] + [ps[k]];
      MajorityWins(c, ps[..k]);
      OneMore(Ballots(c, ps[..k]), ps[k], ps[..k]);
      assert [c.config.id] + ps == [c.config.id] + ps[..k] + [ps[k]];
    }
  }

  lemma OneMore(b: Node, p: NodeId, ps: seq<NodeId>)
    requires p !in ps && p != b.config.id
    requires b.role == Leader || (b.role == Candidate && b.votes == [b.config.id] + ps)
    ensures var l := Spec.Step(b, RequestVoteResp(p, b.config.id, b.term, true));
            && l.term == b.term && l.log == b.log && l.vote == b.vote && l.config == b.config && l.commit == b.commit
            && (b.role == Leader ==> l == b)
            && (b.role == Candidate ==>
                  if 2 * (2 + |ps|) > |b.config.peers| then l.role == Leader
                  else l == b.(votes := b.votes + [p]))
  {
    hide Spec.Others, Spec.PeerMap, Spec.AppendMsgs;
  }

  // ---------------------------------------------------------- whole election

  /** f would vote for c. */
  ghost predicate Willing(f: Node, c: Node) { f.term <= c.term && Free(f, c) && UpToDate(c.log, f.log) }

  /** What f answers to c's request. */
  function Reply(f: Node, c: Node): Message {
    var f1 := Spec.Step(f, Request(c, f.config.id));
    if f1.out == [] then Request(c, f.config.id) else f1.out[|f1.out| - 1]
  }

  /** The candidate c after the answers of fs. */
  function Canvass(c: Node, fs: seq<Node>): Node {
    if fs == [] then c else Spec.Step(Canvass(c, fs[..|fs| - 1]), Reply(fs[|fs| - 1], c))
  }

  function Ids(fs: seq<Node>): (ps: seq<NodeId>)
    ensures |ps| == |fs|
  {
    seq(|fs|, i requires 0 <= i < |fs| => fs[i].config.id)
  }

  lemma {:induction false} CanvassIsBallots(c: Node, fs: seq<Node>)
    requires forall i | 0 <= i < |fs| :: Willing(fs[i], c)
    ensures Canvass(c, fs) == Ballots(c, Ids(fs))
    decreases |fs|
  {
    hide Spec.Step, Willing;
    if fs != [] {
      var k := |fs| - 1;
      CanvassIsBallots(c, fs[..k]);
      assert Ids(fs)[..k] == Ids(fs[..k]);
      WillingReply(fs[k], c);
    }
  }

  lemma WillingReply(f: Node, c: Node)
    requires Willing(f, c)
    ensures Reply(f, c) == RequestVoteResp(f.config.id, c.config.id, c.term, true)
  {
    hide Spec.Step, UpToDate;
    VoteAnswer(f, c);
  }

  /** An election is won: a node whose timeout passes, and whose requests are answered
      by members that would vote for it and with it make a majority, leads the next
      term. */
  lemma ElectionWins(ms: set<NodeId>, v: NodeId, n: Node, fs: seq<Node>)
    requires ConfigOk(ms, v, n.config) && |ms| > 1
    requires n.role != Leader && n.electionElapsed + 1 >= n.config.electionTimeout
    requires Distinct(Ids(fs)) && v !in Ids(fs) && (forall p | p in Ids(fs) :: p in ms)
    requires 2 * (1 + |fs|) > |ms|
    requires forall i | 0 <= i < |fs| :: Willing(fs[i], Spec.Tick(n))
    ensures var l := Canvass(Spec.Tick(n), fs);
            l.role == Leader && l.term == n.term + 1 && l.log == n.log && l.vote == v
  {
    hide Spec.Tick, Willing, Canvass, Ballots, Ids;
    var c := Spec.Tick(n);
    Stands(ms, v, n);
    MembersCard(ms, v, n.config);
    CanvassIsBallots(c, fs);
    IdsCount(fs);
    MajorityWins(c, Ids(fs));
  }

  lemma IdsCount(fs: seq<Node>)
    ensures |Ids(fs)| == |fs|
  {
  }

  /** A new leader starts every other member at the end of its log, knowing nothing
      of theirs, and tells each of them at once. */
  lemma LeaderStarts(ms: set<NodeId>, v: NodeId, c: Node, p: NodeId)
    requires ConfigOk(ms, v, c.config) && p in ms && p != v
    ensures var l := Spec.BecomeLeader(c);
            && l.role == Leader && l.leader == v && l.heartbeatElapsed == 0
            && p in l.next && l.next[p] == LastIndex(c.log) + 1 && p in l.matched && l.matched[p] == 0
            && AppendEntries(v, p, c.term, LastIndex(c.log), LastTerm(c.log), [], c.commit) in l.out
  {
    hide Spec.Others, Spec.AppendMsgs, Spec.PeerMap;
    var l := Spec.Leading(c);
    var others := Spec.Others(v, c.config.peers);
    OthersAre(v, c.config.peers, p);
    AppendMsgsAre(l, others, p);
    assert Spec.AppendMsg(l, p) == AppendEntries(v, p, c.term, LastIndex(c.log), LastTerm(c.log), [], c.commit);
  }

  lemma AppendMsgsAre(n: Node, ps: seq<NodeId>, p: NodeId)
    requires p in ps
    ensures Spec.AppendMsg(n, p) in Spec.AppendMsgs(n, ps)
  {
    var i :| 0 <= i < |ps| && ps[i] == p;
    assert Spec.AppendMsgs(n, ps)[i] == Spec.AppendMsg(n, p);
  }
}
