/** Every call of the Raft core is a sequence of protocol moves. */
module RaftRefine {
  import opened RaftTypes
  import Spec = RaftSpec
  import opened RaftProtocol
  import opened RaftMoves
  import opened RaftGrowth

  /** The peers are the members, each once, and the node is one of them. */
  ghost predicate ConfigOk(ms: set<NodeId>, v: NodeId, c: Config) {
    c.id == v && v in ms && Distinct(c.peers) && forall p :: p in c.peers <==> p in ms
  }

  function ToSet(s: seq<NodeId>): set<NodeId> { set p | p in s }

  function Abs(n: Node): Replica {
    Replica(n.role, n.term, n.vote, n.log, n.commit, ToSet(n.votes), n.next, n.matched)
  }

  /** Who holds index c, as far as leader v knows. */
  ghost function HolderSet(ms: set<NodeId>, v: NodeId, n: Replica, c: nat): set<NodeId> {
    {v} + (set p | p in ms && p != v && Lookup(n.matched, p) >= c)
  }

  /** How the history follows one core call that took a node from a to b. */
  ghost function Record(ms: set<NodeId>, h: History, v: NodeId, a: Replica, b: Replica): History {
    History(
      if b.vote != 0 then h.ballots + {Ballot(b.term, v, b.vote)} else h.ballots,
      if b.term > a.term && b.vote == v then h.cand[Slot(b.term, v) := b.log] else h.cand,
      if b.role == Leader && (a.role != Leader || a.term != b.term)
        then h.elected[b.term := Election(v, b.log, b.votes)] else h.elected,
      if b.role == Leader then h.leaderLog[b.term := b.log] else h.leaderLog,
      if b.role == Leader && b.commit > a.commit
        then h.commits + {Commit(b.term, b.commit, HolderSet(ms, v, b, b.commit))} else h.commits)
  }

  ghost function Sent(ms: seq<Message>): set<Message> { set m | m in ms }

  /** The cluster after node v moved to state n and its messages became visible. */
  ghost function After(s: View, v: NodeId, n: Node): View
    requires v in s.nodes
  {
    View(s.nodes[v := Abs(n)], s.msgs + Sent(n.out), Record(s.nodes.Keys, s.h, v, s.nodes[v], Abs(n)))
  }

  /** n is the live state of v in s, with nothing left to send. */
  ghost predicate Live(ms: set<NodeId>, s: View, v: NodeId, n: Node) {
    ConfigOk(ms, v, n.config) && v in s.nodes && s.nodes[v] == Abs(n) && n.out == [] && Distinct(n.votes)
  }

  // -------------------------------------------------------------- plumbing

  /** A call that changes no vote, log, role or commit adds no history. */
  lemma RecordNothing(ms: set<NodeId>, s: View, v: NodeId, b: Replica)
    requires NodesOk(ms, s) && v in ms
    requires var a := s.nodes[v];
             && b.term == a.term && b.vote == a.vote && b.log == a.log
             && b.commit == a.commit && b.role == a.role
    ensures Record(s.nodes.Keys, s.h, v, s.nodes[v], b) == s.h
  {
    hide Good, Settled, PeerOk;
    assert NodeOk(ms, s.h, s.msgs, v, s.nodes[v]);
  }

  /** A call that leaves a follower records at most its vote. */
  lemma RecordFollower(ms: set<NodeId>, s: View, v: NodeId, b: Replica)
    requires NodesOk(ms, s) && v in ms
    requires b.role == Follower && (b.vote == 0 || (b.term == s.nodes[v].term && b.vote == s.nodes[v].vote))
    ensures Record(s.nodes.Keys, s.h, v, s.nodes[v], b) == s.h
  {
    hide Good, Settled, PeerOk;
    assert NodeOk(ms, s.h, s.msgs, v, s.nodes[v]);
    assert v != 0;
  }

  lemma {:induction false} SayAll(ms: set<NodeId>, s: View, out: seq<Message>)
    requires Inv(ms, s)
    requires forall m | m in out ::
               MsgOk(ms, s.h, m) && m.from in s.nodes && m.term <= s.nodes[m.from].term
               && (m.AppendEntriesResp? ==> !m.success)
    ensures Inv(ms, s.(msgs := s.msgs + Sent(out)))
    decreases |out|
  {
    hide Inv, MsgOk;
    if out == [] {
      assert s.(msgs := s.msgs + Sent(out)) == s;
    } else {
      var k := |out| - 1;
      SayAll(ms, s, out[..k]);
      var s1 := s.(msgs := s.msgs + Sent(out[..k]));
      assert out[k] in out;
      Say(ms, s1, out[k]);
      assert Sent(out) == Sent(out[..k]) + {out[k]} by {
        assert out == out[..k] + [out[k]];
      }
      assert WithMsg(s1, out[k]) == s.(msgs := s.msgs + Sent(out));
    }
  }

  lemma SentOne(m: Message)
    ensures Sent([m]) == {m} && Sent([]) == {}
  {
  }

  // --------------------------------------------------------- vote requests

  lemma VoteKeeps(ms: set<NodeId>, s: View, v: NodeId, n: Node, m: Message)
    requires Inv(ms, s) && Live(ms, s, v, n)
    requires m.RequestVote? && m in s.msgs && m.to == v && m.term == n.term
    ensures Inv(ms, After(s, v, Spec.HandleRequestVote(n, m)))
  {
    hide AcksOk, VotesOk, CommitsOk, NodeOk, BallotsOk, SlotTerms, SlotsOk, ElectionsOk, AppendOk, UpToDate;
    var n' := Spec.HandleRequestVote(n, m);
    var resp := RequestVoteResp(v, m.from, n.term, Spec.Grants(n, m));
    assert MsgOk(ms, s.h, m);
    SentOne(resp);
    assert n'.out == [resp];
    if Spec.Grants(n, m) && n.vote == 0 {
      CanGrantFrom(ms, s, v, n, m);
      Grant(ms, s, v, m.from);
      var s1 := Granted(s, v, m.from);
      FreshVoter(ms, s, v);
      Say(ms, s1, resp);
      assert After(s, v, n') == WithMsg(s1, resp);
    } else {
      if Spec.Grants(n, m) {
        OldBallot(ms, s, v);
      }
      RecordNothing(ms, s, v, Abs(n'));
      Say(ms, s, resp);
      assert s.nodes[v := s.nodes[v]] == s.nodes;
      assert After(s, v, n') == WithMsg(s, resp);
    }
  }

  lemma OldBallot(ms: set<NodeId>, s: View, v: NodeId)
    requires NodesOk(ms, s) && v in ms && s.nodes[v].vote != 0
    ensures Ballot(s.nodes[v].term, v, s.nodes[v].vote) in s.h.ballots
  {
    assert NodeOk(ms, s.h, s.msgs, v, s.nodes[v]);
  }

  /** A node that has not voted leads nothing and stands for nothing. */
  lemma FreshVoter(ms: set<NodeId>, s: View, v: NodeId)
    requires NodesOk(ms, s) && v in ms && s.nodes[v].vote == 0
    ensures s.nodes[v].role == Follower
  {
    assert NodeOk(ms, s.h, s.msgs, v, s.nodes[v]);
  }

  lemma CanGrantFrom(ms: set<NodeId>, s: View, v: NodeId, n: Node, m: Message)
    requires Live(ms, s, v, n) && m.RequestVote? && MsgOk(ms, s.h, m) && m.term == n.term
    requires Spec.Grants(n, m) && n.vote == 0
    ensures CanGrant(ms, s, v, m.from)
  {
  }

  // ------------------------------------------------------------ bookkeeping

  /** A node becomes (or stays) a follower, in its term or a later one. */
  lemma FollowerKeeps(ms: set<NodeId>, s: View, v: NodeId, n: Node, t: Term, lead: NodeId)
    requires Inv(ms, s) && Live(ms, s, v, n) && t >= n.term
    ensures var n' := Spec.BecomeFollower(n, t, lead);
            Inv(ms, WithNode(s, v, Abs(n'))) && Live(ms, WithNode(s, v, Abs(n')), v, n')
  {
    hide AcksOk, VotesOk, CommitsOk, Good, BallotsOk, SlotTerms, SlotsOk, ElectionsOk, MsgsOk, CandidateOk;
    hide LeaderOk, Settled;
    var n' := Spec.BecomeFollower(n, t, lead);
    assert NodeOk(ms, s.h, s.msgs, v, s.nodes[v]);
    SettledLater(s.h, n.log, n.commit, n.term, n'.term);
    NodeMove(ms, s, v, Abs(n'));
  }

  /** Once a node is a follower that has not just voted for itself, what it went
      through earlier in the same call leaves no other trace. */
  lemma AfterFollower(s: View, v: NodeId, n0: Node, n: Node)
    requires v in s.nodes && v != 0
    requires n.role == Follower && n0.role == Follower
    requires n.vote != v || n.term == n0.term == s.nodes[v].term
    ensures After(WithNode(s, v, Abs(n0)), v, n) == After(s, v, n)
  {
    assert WithNode(s, v, Abs(n0)).nodes.Keys == s.nodes.Keys;
  }
}
