/** Elections, replication and proposals refine the protocol; with them every
    entry point of the core keeps the invariant. */
module RaftCalls {
  import opened RaftTypes
  import Spec = RaftSpec
  import opened RaftProtocol
  import opened RaftMoves
  import opened RaftGrowth
  import opened RaftLeading
  import opened RaftRefine
  import opened RaftAppend

  // --------------------------------------------------------------- counting

  lemma {:induction false} OthersAre(id: NodeId, ps: seq<NodeId>, p: NodeId)
    ensures p in Spec.Others(id, ps) <==> p in ps && p != id
    decreases |ps|
  {
    if ps != [] {
      assert ps == ps[..|ps| - 1] + [ps[|ps| - 1]];
      OthersAre(id, ps[..|ps| - 1], p);
    }
  }

  lemma {:induction false} DistinctCard(s: seq<NodeId>)
    requires Distinct(s)
    ensures |ToSet(s)| == |s|
    decreases |s|
  {
    if s != [] {
      var k := |s| - 1;
      DistinctCard(s[..k]);
      assert s == s[..k] + [s[k]];
      assert ToSet(s) == ToSet(s[..k]) + {s[k]};
    }
  }

  lemma MembersCard(ms: set<NodeId>, v: NodeId, c: Config)
    requires ConfigOk(ms, v, c)
    ensures |c.peers| == |ms|
  {
    DistinctCard(c.peers);
    assert ToSet(c.peers) == ms;
  }

  lemma EnoughIsQuorum(ms: set<NodeId>, v: NodeId, c: Config, q: set<NodeId>)
    requires ConfigOk(ms, v, c) && q <= ms && |q| >= QuorumSize(c)
    ensures Quorum(ms, q)
  {
    MembersCard(ms, v, c);
  }

  ghost function Acknowledgers(n: Node, ps: seq<NodeId>, i: nat): set<NodeId> {
    set p | p in ps && p != n.config.id && Lookup(n.matched, p) >= i
  }

  lemma AcknowledgersSnoc(n: Node, ps: seq<NodeId>, q: NodeId, i: nat)
    requires q !in ps
    ensures Acknowledgers(n, ps + [q], i)
            == Acknowledgers(n, ps, i) + (if q != n.config.id && Lookup(n.matched, q) >= i then {q} else {})
    ensures q !in Acknowledgers(n, ps, i)
  {
  }

  /** Counting acknowledgements peer by peer counts the set of holders. */
  lemma {:induction false} HoldersCount(n: Node, ps: seq<NodeId>, i: nat)
    requires Distinct(ps)
    ensures Spec.Holders(n, ps, i) == |Acknowledgers(n, ps, i)|
    decreases |ps|
  {
    if ps != [] {
      var k := |ps| - 1;
      HoldersCount(n, ps[..k], i);
      assert ps == ps[..k] + [ps[k]];
      AcknowledgersSnoc(n, ps[..k], ps[k], i);
      hide Acknowledgers, Lookup, Distinct;
    }
  }

  // -------------------------------------------------------------- broadcast

  lemma AppendMsgOk(ms: set<NodeId>, h: History, msgs: set<Message>, v: NodeId, n: Node, p: NodeId)
    requires n.config.id == v && v in ms && p in ms && p != v
    requires NodeOk(ms, h, msgs, v, Abs(n)) && n.role == Leader
    ensures MsgOk(ms, h, Spec.AppendMsg(n, p))
  {
    hide Good, Settled, Quorum, CandidateOk;
    assert PeerOk(msgs, v, Abs(n), p);
    var m := Spec.AppendMsg(n, p);
    assert m.prevLogIndex + 1 + |m.entries| == |n.log|;
    assert n.log[m.prevLogIndex + 1..] == n.log[m.prevLogIndex + 1..|n.log|];
  }

  /** A leader sends every peer the rest of its log. */
  lemma BroadcastKeeps(ms: set<NodeId>, s: View, v: NodeId, n: Node)
    requires Inv(ms, s) && ConfigOk(ms, v, n.config) && v in s.nodes && s.nodes[v] == Abs(n) && n.role == Leader
    ensures Inv(ms, s.(msgs := s.msgs + Sent(Spec.AppendMsgs(n, Spec.Others(v, n.config.peers)))))
  {
    hide AcksOk, VotesOk, CommitsOk, NodeOk, BallotsOk, SlotTerms, SlotsOk, ElectionsOk, MsgsOk, MsgOk;
    hide Spec.Others, Spec.AppendMsg;
    var others := Spec.Others(v, n.config.peers);
    var out := Spec.AppendMsgs(n, others);
    forall m | m in out
      ensures MsgOk(ms, s.h, m) && m.from == v && m.term == n.term && m.AppendEntries?
    {
      var i :| 0 <= i < |out| && out[i] == m;
      OthersAre(v, n.config.peers, others[i]);
      AppendMsgOk(ms, s.h, s.msgs, v, n, others[i]);
      AppendMsgShape(n, others[i]);
    }
    SayAll(ms, s, out);
  }

  lemma AppendMsgShape(n: Node, p: NodeId)
    ensures var m := Spec.AppendMsg(n, p); m.from == n.config.id && m.term == n.term && m.AppendEntries?
  {
  }

  // -------------------------------------------------------------- elections

  lemma RecordVoteSet(votes: seq<NodeId>, from: NodeId)
    requires Distinct(votes)
    ensures Distinct(Spec.RecordVote(votes, from)) && ToSet(Spec.RecordVote(votes, from)) == ToSet(votes) + {from}
  {
  }

  lemma CountKeeps(ms: set<NodeId>, s: View, v: NodeId, n: Node, from: NodeId)
    requires Inv(ms, s) && Live(ms, s, v, n) && n.role == Candidate
    requires from in ms && Ballot(n.term, from, v) in s.h.ballots
    ensures var n1 := n.(votes := Spec.RecordVote(n.votes, from));
            Inv(ms, WithNode(s, v, Abs(n1))) && Live(ms, WithNode(s, v, Abs(n1)), v, n1)
  {
    hide AcksOk, VotesOk, CommitsOk, Good, BallotsOk, SlotTerms, SlotsOk, ElectionsOk, MsgsOk, Settled;
    hide LeaderOk, Spec.RecordVote, ToSet, Distinct;
    RecordVoteSet(n.votes, from);
    assert NodeOk(ms, s.h, s.msgs, v, s.nodes[v]);
    NodeMove(ms, s, v, Abs(n.(votes := Spec.RecordVote(n.votes, from))));
  }

  lemma CanWinNow(ms: set<NodeId>, s: View, v: NodeId, n: Node)
    requires NodesOk(ms, s) && Live(ms, s, v, n) && n.role == Candidate && |n.votes| >= QuorumSize(n.config)
    ensures CanWin(ms, s, v, Spec.Leading(n).next, Spec.Leading(n).matched)
  {
    hide Good, Settled, LeaderOk, Spec.PeerMap;
    assert NodeOk(ms, s.h, s.msgs, v, s.nodes[v]);
    DistinctCard(n.votes);
    EnoughIsQuorum(ms, v, n.config, ToSet(n.votes));
  }

  lemma WonIsAfter(s: View, v: NodeId, n: Node)
    requires v in s.nodes && s.nodes[v] == Abs(n) && n.role == Candidate && n.vote == v && v != 0
    requires Ballot(n.term, v, v) in s.h.ballots
    ensures var n' := Spec.Leading(n);
            Won(s, v, n'.next, n'.matched)
            == s.(nodes := s.nodes[v := Abs(n')], h := Record(s.nodes.Keys, s.h, v, s.nodes[v], Abs(n')))
  {
    hide Spec.PeerMap, ToSet;
    assert s.h.ballots + {Ballot(n.term, v, v)} == s.h.ballots;
  }

  lemma CandidateFacts(ms: set<NodeId>, s: View, v: NodeId)
    requires NodesOk(ms, s) && v in ms && s.nodes[v].role == Candidate
    ensures s.nodes[v].vote == v && v != 0 && Ballot(s.nodes[v].term, v, v) in s.h.ballots
  {
    assert NodeOk(ms, s.h, s.msgs, v, s.nodes[v]);
  }

  /** Winning and announcing it, in one call. */
  lemma WinKeeps(ms: set<NodeId>, s: View, v: NodeId, n: Node)
    requires Inv(ms, s) && Live(ms, s, v, n) && n.role == Candidate && |n.votes| >= QuorumSize(n.config)
    ensures Inv(ms, After(s, v, Spec.BecomeLeader(n)))
  {
    hide AcksOk, VotesOk, CommitsOk, NodeOk, BallotsOk, SlotTerms, SlotsOk, ElectionsOk, MsgsOk, Spec.PeerMap;
    hide Spec.Others, Spec.AppendMsgs, CanWin, ToSet, Record;
    var n1 := Spec.Leading(n);
    CanWinNow(ms, s, v, n);
    CandidateFacts(ms, s, v);
    Win(ms, s, v, n1.next, n1.matched);
    WonIsAfter(s, v, n);
    var s1 := Won(s, v, n1.next, n1.matched);
    BroadcastKeeps(ms, s1, v, n1);
    var n2 := Spec.BecomeLeader(n);
    assert n2.out == Spec.AppendMsgs(n1, Spec.Others(v, n.config.peers));
    assert Abs(n2) == Abs(n1);
  }

  lemma VoteRespKeeps(ms: set<NodeId>, s: View, v: NodeId, n: Node, m: Message)
    requires Inv(ms, s) && Live(ms, s, v, n) && n.role == Candidate
    requires m.RequestVoteResp? && m in s.msgs && m.to == v && m.term == n.term && m.granted
    ensures Inv(ms, After(s, v, Spec.StepCandidate(n, m)))
  {
    hide AcksOk, VotesOk, CommitsOk, NodeOk, BallotsOk, SlotTerms, SlotsOk, ElectionsOk, AppendOk;
    hide Spec.BecomeLeader, Spec.RecordVote, ToSet;
    assert MsgOk(ms, s.h, m);
    CountKeeps(ms, s, v, n, m.from);
    var n1 := n.(votes := Spec.RecordVote(n.votes, m.from));
    var s1 := WithNode(s, v, Abs(n1));
    CandidateFacts(ms, s, v);
    if |n1.votes| >= QuorumSize(n1.config) {
      WinKeeps(ms, s1, v, n1);
      LeaderShape(n1);
      assert s1.nodes.Keys == s.nodes.Keys;
      assert After(s1, v, Spec.BecomeLeader(n1)) == After(s, v, Spec.BecomeLeader(n1));
    } else {
      RecordNothing(ms, s, v, Abs(n1));
      SentOne(m);
      assert After(s, v, n1) == s1;
    }
  }

  lemma LeaderShape(n: Node)
    ensures var n' := Spec.BecomeLeader(n);
            && n'.role == Leader && n'.term == n.term && n'.commit == n.commit
            && n'.vote == n.vote && n'.votes == n.votes && n'.log == n.log && n'.config == n.config
  {
  }

  lemma StoodIsAfter(s: View, v: NodeId, n: Node)
    requires v in s.nodes && s.nodes[v] == Abs(n) && n.config.id == v && v != 0
    ensures var n1 := Spec.Campaigning(n);
            Stood(s, v) == s.(nodes := s.nodes[v := Abs(n1)], h := Record(s.nodes.Keys, s.h, v, s.nodes[v], Abs(n1)))
  {
    assert ToSet([v]) == {v};
  }

  lemma VoteRequestsOk(ms: set<NodeId>, s: View, v: NodeId, n: Node)
    requires ConfigOk(ms, v, n.config) && Slot(n.term, v) in s.h.cand && s.h.cand[Slot(n.term, v)] == n.log
    ensures forall m | m in Spec.VoteRequests(n, Spec.Others(v, n.config.peers)) ::
              MsgOk(ms, s.h, m) && m.from == v && m.term == n.term && m.RequestVote?
  {
    hide Spec.Others, AppendOk;
    var others := Spec.Others(v, n.config.peers);
    forall m | m in Spec.VoteRequests(n, others)
      ensures MsgOk(ms, s.h, m) && m.from == v && m.term == n.term && m.RequestVote?
    {
      var i :| 0 <= i < |others| && Spec.VoteRequests(n, others)[i] == m;
      OthersAre(v, n.config.peers, others[i]);
    }
  }

  /** Starting an election, and winning it at once in a cluster of one. */
  lemma CandidateKeeps(ms: set<NodeId>, s: View, v: NodeId, n: Node)
    requires Inv(ms, s) && Live(ms, s, v, n)
    ensures Inv(ms, After(s, v, Spec.BecomeCandidate(n)))
  {
    hide AcksOk, VotesOk, CommitsOk, NodeOk, BallotsOk, SlotTerms, SlotsOk, ElectionsOk, MsgsOk, MsgOk;
    hide Spec.BecomeLeader, Spec.Others, Spec.VoteRequests, ToSet;
    var n1 := Spec.Campaigning(n);
    Stand(ms, s, v);
    StoodIsAfter(s, v, n);
    var s1 := Stood(s, v);
    if |n1.votes| >= QuorumSize(n1.config) {
      WinKeeps(ms, s1, v, n1);
      LeaderShape(n1);
      assert s1.nodes.Keys == s.nodes.Keys;
      assert After(s1, v, Spec.BecomeLeader(n1)) == After(s, v, Spec.BecomeLeader(n1));
    } else {
      VoteRequestsOk(ms, s1, v, n1);
      SayAll(ms, s1, Spec.VoteRequests(n1, Spec.Others(v, n1.config.peers)));
      assert After(s, v, Spec.BecomeCandidate(n))
             == s1.(msgs := s1.msgs + Sent(Spec.VoteRequests(n1, Spec.Others(v, n1.config.peers))));
    }
  }

  // --------------------------------------------------------- leader's calls

  /** A success reply moves the peer's counters; they stay in range and true. */
  lemma TrackKeeps(ms: set<NodeId>, s: View, v: NodeId, n: Node, m: Message)
    requires Inv(ms, s) && Live(ms, s, v, n) && n.role == Leader
    requires m.AppendEntriesResp? && m in s.msgs && m.to == v && m.term == n.term && m.success
    ensures var n1 := n.(matched := n.matched[m.from := m.matchIndex], next := n.next[m.from := m.matchIndex + 1]);
            Inv(ms, WithNode(s, v, Abs(n1))) && Live(ms, WithNode(s, v, Abs(n1)), v, n1)
  {
    hide AcksOk, VotesOk, CommitsOk, Good, BallotsOk, SlotTerms, SlotsOk, ElectionsOk, Settled, CandidateOk;
    hide AppendOk, ToSet;
    var n1 := n.(matched := n.matched[m.from := m.matchIndex], next := n.next[m.from := m.matchIndex + 1]);
    assert NodeOk(ms, s.h, s.msgs, v, s.nodes[v]);
    assert MsgOk(ms, s.h, m);
    forall p | p in ms && p != v ensures PeerOk(s.msgs, v, Abs(n1), p) {
      assert PeerOk(s.msgs, v, Abs(n), p);
      if p == m.from {
        assert m == AppendEntriesResp(p, v, n.term, true, m.matchIndex);
      }
    }
    NodeMove(ms, s, v, Abs(n1));
  }

  lemma BackOffKeeps(ms: set<NodeId>, s: View, v: NodeId, n: Node, m: Message)
    requires Inv(ms, s) && Live(ms, s, v, n) && n.role == Leader
    requires m.AppendEntriesResp? && m in s.msgs && m.to == v && m.term == n.term && !m.success
    ensures Inv(ms, After(s, v, Spec.HandleAppendEntriesResp(n, m)))
  {
    hide AcksOk, VotesOk, CommitsOk, Good, BallotsOk, SlotTerms, SlotsOk, ElectionsOk, Settled, CandidateOk;
    hide AppendOk, ToSet;
    var n1 := Spec.HandleAppendEntriesResp(n, m);
    assert NodeOk(ms, s.h, s.msgs, v, s.nodes[v]);
    assert MsgOk(ms, s.h, m);
    forall p | p in ms && p != v ensures PeerOk(s.msgs, v, Abs(n1), p) {
      assert PeerOk(s.msgs, v, Abs(n), p);
    }
    NodeMove(ms, s, v, Abs(n1));
    RecordNothing(ms, s, v, Abs(n1));
    SentOne(m);
    assert After(s, v, n1) == WithNode(s, v, Abs(n1));
  }

  lemma HolderSetCard(ms: set<NodeId>, v: NodeId, n: Node, c: nat)
    requires ConfigOk(ms, v, n.config)
    ensures |HolderSet(ms, v, Abs(n), c)| == 1 + Spec.Holders(n, n.config.peers, c)
  {
    HoldersCount(n, n.config.peers, c);
    assert HolderSet(ms, v, Abs(n), c) == {v} + Acknowledgers(n, n.config.peers, c);
  }

  /** What the leader counts as replicated really has been acknowledged. */
  lemma HoldersAcked(ms: set<NodeId>, s: View, v: NodeId, n: Node, c: nat)
    requires NodesOk(ms, s) && Live(ms, s, v, n) && n.role == Leader && 0 < c <= LastIndex(n.log)
    ensures forall w | w in HolderSet(ms, v, Abs(n), c) :: Acked(s, n.term, w, c)
  {
    hide Good, Settled, CandidateOk;
    assert NodeOk(ms, s.h, s.msgs, v, s.nodes[v]);
    forall w | w in HolderSet(ms, v, Abs(n), c) ensures Acked(s, n.term, w, c) {
      if w != v {
        assert PeerOk(s.msgs, v, Abs(n), w);
      }
    }
  }

  lemma CommitRule(ms: set<NodeId>, s: View, v: NodeId, n: Node)
    requires NodesOk(ms, s) && Live(ms, s, v, n) && n.role == Leader
    requires n.commit < Spec.MaybeCommit(n).commit
    ensures CanCommit(ms, s, v, Spec.MaybeCommit(n).commit, HolderSet(ms, v, Abs(n), Spec.MaybeCommit(n).commit))
  {
    hide NodeOk, Acked;
    var c := Spec.MaybeCommit(n).commit;
    HolderSetCard(ms, v, n, c);
    EnoughIsQuorum(ms, v, n.config, HolderSet(ms, v, Abs(n), c));
    HoldersAcked(ms, s, v, n, c);
  }

  lemma CommitKeeps(ms: set<NodeId>, s: View, v: NodeId, n: Node)
    requires Inv(ms, s) && Live(ms, s, v, n) && n.role == Leader
    ensures Inv(ms, After(s, v, Spec.MaybeCommit(n)))
  {
    hide AcksOk, VotesOk, CommitsOk, NodeOk, BallotsOk, SlotTerms, SlotsOk, ElectionsOk, MsgsOk, CanCommit;
    hide HolderSet, Committed, ToSet, Spec.CommitPoint;
    var n' := Spec.MaybeCommit(n);
    SentOne(RequestVoteResp(0, 0, 0, false));
    if n.commit < n'.commit {
      CommitRule(ms, s, v, n);
      CommitMove(ms, s, v, n'.commit, HolderSet(ms, v, Abs(n), n'.commit));
      CommittedIsAfter(ms, s, v, n);
    } else {
      CommitUp(n);
      RecordNothing(ms, s, v, Abs(n'));
      assert s.nodes[v := s.nodes[v]] == s.nodes;
      assert After(s, v, n') == s;
    }
  }

  lemma CommitUp(n: Node)
    ensures n.commit <= Spec.MaybeCommit(n).commit
  {
  }

  lemma CommittedIsAfter(ms: set<NodeId>, s: View, v: NodeId, n: Node)
    requires NodesOk(ms, s) && Live(ms, s, v, n) && n.role == Leader && n.commit < Spec.MaybeCommit(n).commit
    ensures var n' := Spec.MaybeCommit(n);
            After(s, v, n') == Committed(s, v, n'.commit, HolderSet(ms, v, Abs(n), n'.commit))
  {
    hide Good, Settled, CandidateOk, PeerOk, Spec.CommitPoint;
    assert NodeOk(ms, s.h, s.msgs, v, s.nodes[v]);
    var n' := Spec.MaybeCommit(n);
    SentOne(RequestVoteResp(0, 0, 0, false));
    assert HolderSet(ms, v, Abs(n), n'.commit) == HolderSet(ms, v, Abs(n'), n'.commit);
    assert s.h.leaderLog[n.term := n.log] == s.h.leaderLog;
    assert s.h.ballots + {Ballot(n.term, v, v)} == s.h.ballots;
  }

  lemma AppendRespKeeps(ms: set<NodeId>, s: View, v: NodeId, n: Node, m: Message)
    requires Inv(ms, s) && Live(ms, s, v, n) && n.role == Leader
    requires m.AppendEntriesResp? && m in s.msgs && m.to == v && m.term == n.term
    ensures Inv(ms, After(s, v, Spec.HandleAppendEntriesResp(n, m)))
  {
    hide Inv, Record, ToSet, Spec.CommitPoint;
    if m.success {
      var n1 := n.(matched := n.matched[m.from := m.matchIndex], next := n.next[m.from := m.matchIndex + 1]);
      TrackKeeps(ms, s, v, n, m);
      CommitKeeps(ms, WithNode(s, v, Abs(n1)), v, n1);
      AfterLeader(s, v, n1, Spec.MaybeCommit(n1));
    } else {
      BackOffKeeps(ms, s, v, n, m);
    }
  }

  /** Counter updates of a leader leave no trace in the history. */
  lemma AfterLeader(s: View, v: NodeId, n1: Node, n2: Node)
    requires v in s.nodes
    requires s.nodes[v].role == n1.role == Leader && s.nodes[v].term == n1.term && s.nodes[v].commit == n1.commit
    ensures After(WithNode(s, v, Abs(n1)), v, n2) == After(s, v, n2)
  {
    assert WithNode(s, v, Abs(n1)).nodes.Keys == s.nodes.Keys;
  }

  lemma ProposedIsAfter(ms: set<NodeId>, s: View, v: NodeId, n: Node, data: Bytes)
    requires NodesOk(ms, s) && Live(ms, s, v, n) && n.role == Leader
    ensures var n1 := n.(log := n.log + [Entry(n.term, LastIndex(n.log) + 1, data)]);
            && After(s, v, n1) == Proposed(s, v, data)
            && After(After(s, v, n1), v, Spec.MaybeCommit(n1)) == After(s, v, Spec.MaybeCommit(n1))
  {
    hide Spec.MaybeCommit, HolderSet, NodeOk;
    var n1 := n.(log := n.log + [Entry(n.term, LastIndex(n.log) + 1, data)]);
    AppendIsProposed(ms, s, v, n, data);
    CommitsOnly(n1);
    AfterTwice(s, v, n1, Spec.MaybeCommit(n1));
  }

  lemma CommitsOnly(n: Node)
    ensures Spec.MaybeCommit(n) == n.(commit := Spec.MaybeCommit(n).commit)
  {
    hide Spec.CommitPoint;
  }

  /** Two steps of a leader that stays in its term leave one record. */
  lemma AfterTwice(s: View, v: NodeId, n1: Node, n2: Node)
    requires v in s.nodes && s.nodes[v].role == n1.role == n2.role == Leader
    requires s.nodes[v].term == n1.term == n2.term && n1.vote == n2.vote && n1.log == n2.log
    requires s.nodes[v].commit == n1.commit && n1.out == n2.out == []
    ensures After(After(s, v, n1), v, n2) == After(s, v, n2)
  {
    hide HolderSet;
    assert After(s, v, n1).nodes.Keys == s.nodes.Keys;
    assert s.msgs + Sent([]) + Sent([]) == s.msgs + Sent([]);
  }

  lemma AppendIsProposed(ms: set<NodeId>, s: View, v: NodeId, n: Node, data: Bytes)
    requires NodesOk(ms, s) && Live(ms, s, v, n) && n.role == Leader
    ensures var n1 := n.(log := n.log + [Entry(n.term, LastIndex(n.log) + 1, data)]);
            After(s, v, n1) == Proposed(s, v, data)
  {
    hide Good, Settled, CandidateOk, PeerOk, HolderSet;
    assert NodeOk(ms, s.h, s.msgs, v, s.nodes[v]);
    SentOne(RequestVoteResp(0, 0, 0, false));
    assert s.h.ballots + {Ballot(n.term, v, v)} == s.h.ballots;
  }

  lemma ProposeKeeps(ms: set<NodeId>, s: View, v: NodeId, n: Node, data: Bytes)
    requires Inv(ms, s) && Live(ms, s, v, n)
    ensures Inv(ms, After(s, v, Spec.Propose(n, data)))
  {
    hide AcksOk, VotesOk, CommitsOk, NodeOk, BallotsOk, SlotTerms, SlotsOk, ElectionsOk, MsgsOk, Record;
    hide ToSet, Proposed, Spec.CommitPoint;
    if n.role == Leader {
      var n1 := n.(log := n.log + [Entry(n.term, LastIndex(n.log) + 1, data)]);
      ProposeMove(ms, s, v, data);
      ProposedIsAfter(ms, s, v, n, data);
      CommitKeeps(ms, After(s, v, n1), v, n1);
    } else {
      IdleKeeps(ms, s, v, n);
    }
  }

  /** A call that changes nothing the protocol looks at. */
  lemma IdleKeeps(ms: set<NodeId>, s: View, v: NodeId, n: Node)
    requires Inv(ms, s) && ConfigOk(ms, v, n.config) && v in s.nodes && s.nodes[v] == Abs(n) && n.out == []
    ensures Inv(ms, After(s, v, n)) && After(s, v, n) == s
  {
    hide AcksOk, VotesOk, CommitsOk, NodeOk, BallotsOk, SlotTerms, SlotsOk, ElectionsOk, MsgsOk, ToSet;
    RecordNothing(ms, s, v, Abs(n));
    SentOne(RequestVoteResp(0, 0, 0, false));
    assert s.nodes[v := s.nodes[v]] == s.nodes;
    assert After(s, v, n) == s;
  }

  // ------------------------------------------------------------ entry points

  lemma RejectKeeps(ms: set<NodeId>, s: View, v: NodeId, n: Node, m: Message)
    requires Inv(ms, s) && Live(ms, s, v, n) && m in s.msgs && m.to == v
    ensures Inv(ms, After(s, v, Spec.RejectStale(n, m)))
  {
    hide AcksOk, VotesOk, CommitsOk, NodeOk, BallotsOk, SlotTerms, SlotsOk, ElectionsOk, AppendOk, ToSet;
    if m.RequestVote? || m.AppendEntries? {
      var n' := Spec.RejectStale(n, m);
      var resp := n'.out[0];
      assert n'.out == [resp];
      SentOne(resp);
      assert MsgOk(ms, s.h, m);
      Say(ms, s, resp);
      RecordNothing(ms, s, v, Abs(n'));
      assert s.nodes[v := s.nodes[v]] == s.nodes;
      assert After(s, v, n') == WithMsg(s, resp);
    } else {
      IdleKeeps(ms, s, v, n);
    }
  }

  lemma NotFromSelf(ms: set<NodeId>, s: View, m: Message)
    requires MsgsOk(ms, s) && m in s.msgs
    ensures m.from != m.to
  {
    hide AppendOk;
    assert MsgOk(ms, s.h, m);
  }

  lemma StepDownKeeps(ms: set<NodeId>, s: View, v: NodeId, n: Node, m: Message)
    requires Inv(ms, s) && Live(ms, s, v, n) && m in s.msgs && m.to == v && m.term > n.term
    ensures Inv(ms, After(s, v, Spec.Step(n, m)))
  {
    hide AcksOk, VotesOk, CommitsOk, NodesOk, BallotsOk, SlotTerms, SlotsOk, ElectionsOk, MsgsOk, ToSet;
    hide Record, Spec.HandleAppendEntries;
    var n0 := Spec.BecomeFollower(n, m.term, if m.AppendEntries? then m.from else 0);
    var s1 := WithNode(s, v, Abs(n0));
    FollowerKeeps(ms, s, v, n, m.term, n0.leader);
    NotFromSelf(ms, s, m);
    NotZero(ms, s, v);
    if m.RequestVote? {
      VoteKeeps(ms, s1, v, n0, m);
      AfterFollower(s, v, n0, Spec.HandleRequestVote(n0, m));
    } else if m.AppendEntries? {
      AppendKeeps(ms, s1, v, n0, m);
      AppendShape(n0, m);
      AfterFollower(s, v, n0, Spec.HandleAppendEntries(n0, m));
    } else {
      IdleKeeps(ms, s1, v, n0);
      AfterFollower(s, v, n0, n0);
    }
  }

  lemma NotZero(ms: set<NodeId>, s: View, v: NodeId)
    requires NodesOk(ms, s) && v in ms
    ensures v != 0
  {
  }

  lemma AppendShape(n: Node, m: Message)
    requires m.AppendEntries?
    ensures var n' := Spec.HandleAppendEntries(n, m);
            n'.role == n.role && n'.vote == n.vote && n'.term == n.term && n'.votes == n.votes && n'.config == n.config
  {
  }

  lemma SameTermKeeps(ms: set<NodeId>, s: View, v: NodeId, n: Node, m: Message)
    requires Inv(ms, s) && Live(ms, s, v, n) && m in s.msgs && m.to == v && m.term == n.term
    ensures Inv(ms, After(s, v, Spec.StepSameTerm(n, m)))
  {
    hide Inv, ToSet, Record, Spec.HandleAppendEntries, Spec.HandleRequestVote, Spec.HandleAppendEntriesResp;
    hide Spec.BecomeLeader;
    if m.RequestVote? {
      VoteKeeps(ms, s, v, n, m);
    } else if m.AppendEntries? && n.role == Follower {
      AppendKeeps(ms, s, v, n, m);
    } else if m.AppendEntries? && n.role == Candidate {
      DeposedKeeps(ms, s, v, n, m);
    } else if m.RequestVoteResp? && n.role == Candidate && m.granted {
      VoteRespKeeps(ms, s, v, n, m);
    } else if m.AppendEntriesResp? && n.role == Leader {
      AppendRespKeeps(ms, s, v, n, m);
    } else {
      IdleKeeps(ms, s, v, n);
    }
  }

  /** A candidate meets the leader of its own term. */
  lemma DeposedKeeps(ms: set<NodeId>, s: View, v: NodeId, n: Node, m: Message)
    requires Inv(ms, s) && Live(ms, s, v, n) && m in s.msgs && m.to == v && m.term == n.term
    requires m.AppendEntries? && n.role == Candidate
    ensures Inv(ms, After(s, v, Spec.StepSameTerm(n, m)))
  {
    hide AcksOk, VotesOk, CommitsOk, NodesOk, BallotsOk, SlotTerms, SlotsOk, ElectionsOk, MsgsOk, ToSet;
    hide Record, Spec.HandleAppendEntries;
    var n0 := Spec.BecomeFollower(n, m.term, m.from);
    FollowerKeeps(ms, s, v, n, m.term, m.from);
    AppendKeeps(ms, WithNode(s, v, Abs(n0)), v, n0, m);
    AppendShape(n0, m);
    NotZero(ms, s, v);
    AfterFollower(s, v, n0, Spec.HandleAppendEntries(n0, m));
  }

  /** Delivering any message ever sent keeps the invariant. */
  lemma StepKeeps(ms: set<NodeId>, s: View, v: NodeId, n: Node, m: Message)
    requires Inv(ms, s) && Live(ms, s, v, n) && m in s.msgs && m.to == v
    ensures Inv(ms, After(s, v, Spec.Step(n, m)))
  {
    hide Inv, ToSet, Record, Spec.StepSameTerm, Spec.RejectStale;
    if m.term > n.term {
      StepDownKeeps(ms, s, v, n, m);
    } else if m.term < n.term {
      RejectKeeps(ms, s, v, n, m);
    } else {
      SameTermKeeps(ms, s, v, n, m);
    }
  }

  lemma HeartbeatKeeps(ms: set<NodeId>, s: View, v: NodeId, n: Node)
    requires Inv(ms, s) && Live(ms, s, v, n) && n.role == Leader
    ensures Inv(ms, After(s, v, Spec.Broadcast(n)))
  {
    hide AcksOk, VotesOk, CommitsOk, NodeOk, BallotsOk, SlotTerms, SlotsOk, ElectionsOk, MsgsOk, ToSet;
    hide Spec.AppendMsgs, Spec.Others;
    var n' := Spec.Broadcast(n);
    BroadcastKeeps(ms, s, v, n);
    RecordNothing(ms, s, v, Abs(n'));
    assert s.nodes[v := s.nodes[v]] == s.nodes;
    assert After(s, v, n') == s.(msgs := s.msgs + Sent(Spec.AppendMsgs(n, Spec.Others(v, n.config.peers))));
  }

  lemma TickKeeps(ms: set<NodeId>, s: View, v: NodeId, n: Node)
    requires Inv(ms, s) && Live(ms, s, v, n)
    ensures Inv(ms, After(s, v, Spec.Tick(n)))
  {
    hide Inv, ToSet, Record, Spec.Broadcast, Spec.BecomeCandidate;
    var n' := Spec.Tick(n);
    if n.role == Leader && n.heartbeatElapsed + 1 >= n.config.heartbeatTimeout {
      HeartbeatKeeps(ms, s, v, n.(heartbeatElapsed := 0));
    } else if n.role != Leader && n.electionElapsed + 1 >= n.config.electionTimeout {
      CandidateKeeps(ms, s, v, n.(electionElapsed := n.electionElapsed + 1));
    } else {
      IdleKeeps(ms, s, v, n');
    }
  }

  /** A restart forgets everything but the term, the vote and the log. */
  lemma RestartKeeps(ms: set<NodeId>, s: View, v: NodeId)
    requires Inv(ms, s) && v in ms
    ensures var a := s.nodes[v];
            Inv(ms, WithNode(s, v, Replica(Follower, a.term, a.vote, a.log, 0, {}, map[], map[])))
  {
    hide AcksOk, VotesOk, CommitsOk, Good, BallotsOk, SlotTerms, SlotsOk, ElectionsOk, MsgsOk, CandidateOk, LeaderOk;
    var a := s.nodes[v];
    assert NodeOk(ms, s.h, s.msgs, v, a);
    NodeMove(ms, s, v, Replica(Follower, a.term, a.vote, a.log, 0, {}, map[], map[]));
  }
}
