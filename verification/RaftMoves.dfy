/** The primitive moves of the protocol, each proved to keep Inv, and the two
    facts that make them safe: one leader per term, and leader completeness. */
module RaftMoves {
  import opened RaftTypes
  import opened RaftProtocol

  // ------------------------------------------------ elections and commits

  /** A quorum that voted for c in a decided term voted for its leader. */
  lemma OneLeader(ms: set<NodeId>, s: View, t: Term, q: set<NodeId>, c: NodeId)
    requires BallotsOk(ms, s) && ElectionsOk(ms, s.h)
    requires t in s.h.elected && Quorum(ms, q)
    requires forall w | w in q :: Ballot(t, w, c) in s.h.ballots
    ensures c == s.h.elected[t].leader
  {
    hide Good;
    assert ElectionOk(ms, s.h, t, s.h.elected[t]);
    var v := QuorumsMeet(ms, q, s.h.elected[t].voters);
    assert Ballot(t, v, c) in s.h.ballots && Ballot(t, v, s.h.elected[t].leader) in s.h.ballots;
  }

  /** Leader completeness: an index committed in term k.term is in the log with
      which every later leader was elected. */
  lemma {:induction false} CommitSurvivesElection(ms: set<NodeId>, s: View, k: Commit, u: Term)
    requires ElectionsOk(ms, s.h) && VotesOk(s) && CommitsOk(ms, s)
    requires k in s.h.commits && u in s.h.elected && k.term < u
    ensures Agree(s.h.elected[u].init, s.h.leaderLog[k.term], k.index)
    decreases u
  {
    forall w | w in s.h.elected && k.term < w <= u - 1
      ensures Agree(s.h.elected[w].init, s.h.leaderLog[k.term], k.index)
    {
      CommitSurvivesElection(ms, s, k, w);
    }
    assert CommitOk(ms, s, k) && ElectionOk(ms, s.h, u, s.h.elected[u]);
    var v := QuorumsMeet(ms, k.holders, s.h.elected[u].voters);
    assert Carries(s, u, v, s.h.elected[u].leader);
    assert CarriesOne(s, u, v, s.h.elected[u].leader, k.term, k.index);
  }

  /** The leader log of every term from k.term on contains the committed prefix. */
  lemma CommitInLeaderLog(ms: set<NodeId>, s: View, k: Commit, u: Term)
    requires ElectionsOk(ms, s.h) && VotesOk(s) && CommitsOk(ms, s)
    requires k in s.h.commits && u in s.h.elected && k.term <= u
    ensures u in s.h.leaderLog && k.term in s.h.leaderLog
    ensures Agree(s.h.leaderLog[u], s.h.leaderLog[k.term], k.index)
  {
    hide Good, Quorum, Acked, VotesOk;
    assert CommitOk(ms, s, k) && ElectionOk(ms, s.h, u, s.h.elected[u]);
    if k.term < u {
      CommitSurvivesElection(ms, s, k, u);
      AgreeExtend(s.h.leaderLog[k.term], s.h.elected[u].init, s.h.leaderLog[u], k.index);
    }
  }

  /** What is settled by term t is in the leader log of t. */
  lemma SettledInLeaderLog(ms: set<NodeId>, s: View, l: seq<Entry>, c: nat, t: Term)
    requires ElectionsOk(ms, s.h) && VotesOk(s) && CommitsOk(ms, s)
    requires Settled(s.h, l, c, t) && t in s.h.elected && 0 < c
    ensures t in s.h.leaderLog && Agree(l, s.h.leaderLog[t], c)
  {
    var k :| k in s.h.commits && k.term <= t && c <= k.index && k.term in s.h.leaderLog
             && Agree(l, s.h.leaderLog[k.term], c);
    CommitInLeaderLog(ms, s, k, t);
    AgreeDown(s.h.leaderLog[t], s.h.leaderLog[k.term], k.index, c);
  }

  /** Two settled prefixes hold the same entry wherever both reach. */
  lemma SettledAgree(ms: set<NodeId>, s: View, a: seq<Entry>, c: nat, t: Term, b: seq<Entry>, d: nat, u: Term, i: nat)
    requires ElectionsOk(ms, s.h) && VotesOk(s) && CommitsOk(ms, s)
    requires Settled(s.h, a, c, t) && Settled(s.h, b, d, u)
    requires 0 < i <= c && i <= d
    ensures Agree(a, b, i)
  {
    var j :| j in s.h.commits && j.term <= t && c <= j.index && j.term in s.h.leaderLog
             && Agree(a, s.h.leaderLog[j.term], c);
    var k :| k in s.h.commits && k.term <= u && d <= k.index && k.term in s.h.leaderLog
             && Agree(b, s.h.leaderLog[k.term], d);
    AgreeDown(a, s.h.leaderLog[j.term], c, i);
    AgreeDown(b, s.h.leaderLog[k.term], d, i);
    if j.term <= k.term {
      CommitInLeaderLog(ms, s, j, k.term);
      AgreeDown(s.h.leaderLog[k.term], s.h.leaderLog[j.term], j.index, i);
    } else {
      CommitInLeaderLog(ms, s, k, j.term);
      AgreeDown(s.h.leaderLog[j.term], s.h.leaderLog[k.term], k.index, i);
    }
  }

  // -------------------------------------------- moves that keep the history

  ghost function WithNode(s: View, v: NodeId, n: Replica): View {
    s.(nodes := s.nodes[v := n])
  }

  ghost function WithMsg(s: View, m: Message): View {
    s.(msgs := s.msgs + {m})
  }

  lemma NodeMoveBasic(ms: set<NodeId>, s: View, v: NodeId, n: Replica)
    requires Basic(ms, s) && v in ms
    requires NodeOk(ms, s.h, s.msgs, v, n)
    requires s.nodes[v].term <= n.term
    requires s.nodes[v].term == n.term ==> s.nodes[v].vote == n.vote
    ensures Basic(ms, WithNode(s, v, n))
  {
    hide NodeOk, Good, MsgOk, ElectionsOk;
  }

  /** Acknowledged entries stay held when no log loses what it had in common
      with the leader log and no new acknowledgement appears. */
  lemma SameAcks(s: View, s': View)
    requires AcksOk(s) && s.h == s'.h
    requires forall t: Term, v: NodeId, i: nat | Acked(s', t, v, i) :: Acked(s, t, v, i)
    requires s.nodes.Keys == s'.nodes.Keys
    requires forall v | v in s.nodes :: s.nodes[v].term <= s'.nodes[v].term && s.nodes[v].log == s'.nodes[v].log
    ensures AcksOk(s')
  {
    forall t: Term, w: NodeId, i: nat ensures AckHeld(s', t, w, i) {
      assert AckHeld(s, t, w, i);
    }
  }

  /** A node changes anything but its log, without taking back a vote. */
  lemma NodeMove(ms: set<NodeId>, s: View, v: NodeId, n: Replica)
    requires Inv(ms, s) && v in ms
    requires NodeOk(ms, s.h, s.msgs, v, n)
    requires n.log == s.nodes[v].log
    requires s.nodes[v].term <= n.term
    requires s.nodes[v].term == n.term ==> s.nodes[v].vote == n.vote
    ensures Inv(ms, WithNode(s, v, n))
  {
    hide AcksOk, VotesOk, CommitsOk, NodeOk, SlotsOk, ElectionsOk, MsgsOk, Acked;
    var s' := WithNode(s, v, n);
    NodeMoveBasic(ms, s, v, n);
    NoNewAcks(s, s');
    SameAcks(s, s');
    ElectedVotersTerms(ms, s');
    SameVotes(s, s');
    SameCommits(ms, s, s');
  }

  lemma NoNewAcks(s: View, s': View)
    requires s.h == s'.h
    requires forall m | m in s'.msgs && m.AppendEntriesResp? && m.success :: m in s.msgs
    ensures forall t: Term, v: NodeId, i: nat | Acked(s', t, v, i) :: Acked(s, t, v, i)
  {
  }

  lemma SameVotes(s: View, s': View)
    requires VotesOk(s) && s.h == s'.h
    requires forall t: Term, v: NodeId, i: nat | Acked(s', t, v, i) && v in s'.nodes && t < s'.nodes[v].term ::
               Acked(s, t, v, i)
    requires forall b | b in s.h.ballots :: b.voter in s'.nodes && b.term <= s'.nodes[b.voter].term
    requires forall u, v | u in s.h.elected && v in s.h.elected[u].voters :: v in s'.nodes && u <= s'.nodes[v].term
    ensures VotesOk(s')
  {
    forall b | b in s.h.ballots && b.term !in s.h.elected ensures Carries(s', b.term, b.voter, b.cand) {
      assert Carries(s, b.term, b.voter, b.cand);
      forall t: Term, i: nat ensures CarriesOne(s', b.term, b.voter, b.cand, t, i) {
        assert CarriesOne(s, b.term, b.voter, b.cand, t, i);
      }
    }
    forall u, v | u in s.h.elected && v in s.h.elected[u].voters ensures Carries(s', u, v, s.h.elected[u].leader) {
      assert Carries(s, u, v, s.h.elected[u].leader);
      forall t: Term, i: nat ensures CarriesOne(s', u, v, s.h.elected[u].leader, t, i) {
        assert CarriesOne(s, u, v, s.h.elected[u].leader, t, i);
      }
    }
  }

  lemma SameCommits(ms: set<NodeId>, s: View, s': View)
    requires CommitsOk(ms, s) && s.h == s'.h && s.msgs <= s'.msgs
    ensures CommitsOk(ms, s')
  {
    forall k | k in s.h.commits ensures CommitOk(ms, s', k) {
      assert CommitOk(ms, s, k);
      forall q | q in k.holders ensures Acked(s', k.term, q, k.index) {
        assert Acked(s, k.term, q, k.index);
      }
    }
  }

  lemma NodesMoreMessages(ms: set<NodeId>, s: View, m: Message)
    requires NodesOk(ms, s)
    ensures NodesOk(ms, WithMsg(s, m))
  {
    hide Good, Settled, CandidateOk;
    var s' := WithMsg(s, m);
    forall v | v in ms ensures NodeOk(ms, s'.h, s'.msgs, v, s'.nodes[v]) {
      var n := s.nodes[v];
      assert NodeOk(ms, s.h, s.msgs, v, n);
      if n.role == Leader {
        forall p | p in ms && p != v ensures PeerOk(s'.msgs, v, n, p) {
          assert PeerOk(s.msgs, v, n, p);
        }
      }
    }
  }

  lemma MoreMessages(ms: set<NodeId>, s: View, m: Message)
    requires Basic(ms, s)
    requires MsgOk(ms, s.h, m) && m.term <= s.nodes[m.from].term
    ensures Basic(ms, WithMsg(s, m))
  {
    hide NodeOk, SlotsOk, MsgOk, ElectionsOk, BallotsOk;
    SenderIsMember(ms, s.h, m);
    NodesMoreMessages(ms, s, m);
    BallotsStay(ms, s, m);
  }

  lemma SenderIsMember(ms: set<NodeId>, h: History, m: Message)
    requires MsgOk(ms, h, m)
    ensures m.from in ms
  {
    hide Good;
  }

  lemma BallotsStay(ms: set<NodeId>, s: View, m: Message)
    requires BallotsOk(ms, s) && SlotTerms(ms, s)
    ensures BallotsOk(ms, WithMsg(s, m)) && SlotTerms(ms, WithMsg(s, m))
  {
  }

  /** A node sends anything that acknowledges no entries. */
  lemma Say(ms: set<NodeId>, s: View, m: Message)
    requires Inv(ms, s)
    requires MsgOk(ms, s.h, m) && m.term <= s.nodes[m.from].term
    requires m.AppendEntriesResp? ==> !m.success
    ensures Inv(ms, WithMsg(s, m))
  {
    hide AcksOk, VotesOk, CommitsOk, NodeOk, SlotsOk, ElectionsOk, MsgOk, Acked;
    var s' := WithMsg(s, m);
    MoreMessages(ms, s, m);
    NoNewAcks(s, s');
    SameAcks(s, s');
    ElectedVotersTerms(ms, s');
    SameVotes(s, s');
    SameCommits(ms, s, s');
  }

  lemma ElectedVotersTerms(ms: set<NodeId>, s: View)
    requires Basic(ms, s)
    ensures forall u, v | u in s.h.elected && v in s.h.elected[u].voters :: v in s.nodes && u <= s.nodes[v].term
  {
    forall u, v | u in s.h.elected && v in s.h.elected[u].voters ensures v in s.nodes && u <= s.nodes[v].term {
      assert ElectionOk(ms, s.h, u, s.h.elected[u]);
      assert Ballot(u, v, s.h.elected[u].leader) in s.h.ballots;
    }
  }

  lemma NewAck(s: View, v: NodeId, k: nat)
    requires AcksOk(s) && v in s.nodes
    requires s.nodes[v].term in s.h.elected && s.nodes[v].term in s.h.leaderLog
    requires Agree(s.nodes[v].log, s.h.leaderLog[s.nodes[v].term], k)
    ensures AcksOk(WithMsg(s, AckMsg(s, v, k)))
    ensures forall t: Term, w: NodeId, i: nat | Acked(WithMsg(s, AckMsg(s, v, k)), t, w, i) ::
              Acked(s, t, w, i) || (w == v && t == s.nodes[v].term)
  {
    var u := s.nodes[v].term;
    var s' := WithMsg(s, AckMsg(s, v, k));
    forall t: Term, w: NodeId, i: nat ensures AckHeld(s', t, w, i) {
      assert AckHeld(s, t, w, i);
      if Acked(s', t, w, i) && !Acked(s, t, w, i) {
        AgreeDown(s.nodes[v].log, s.h.leaderLog[u], k, i);
      }
    }
  }

  ghost function AckMsg(s: View, v: NodeId, k: nat): Message
    requires v in s.nodes && s.nodes[v].term in s.h.elected
  {
    AppendEntriesResp(v, s.h.elected[s.nodes[v].term].leader, s.nodes[v].term, true, k)
  }

  /** A node in term t tells the leader of t that it holds its log through k. */
  lemma Acknowledge(ms: set<NodeId>, s: View, v: NodeId, k: nat)
    requires Inv(ms, s) && v in ms
    requires s.nodes[v].term in s.h.elected && s.nodes[v].term in s.h.leaderLog
    requires Agree(s.nodes[v].log, s.h.leaderLog[s.nodes[v].term], k)
    requires MsgOk(ms, s.h, AckMsg(s, v, k))
    ensures Inv(ms, WithMsg(s, AckMsg(s, v, k)))
  {
    hide AcksOk, VotesOk, CommitsOk, NodeOk, SlotsOk, ElectionsOk, MsgOk, Acked, Agree;
    var s' := WithMsg(s, AckMsg(s, v, k));
    MoreMessages(ms, s, AckMsg(s, v, k));
    NewAck(s, v, k);
    ElectedVotersTerms(ms, s');
    SameVotes(s, s');
    SameCommits(ms, s, s');
  }

  /** A follower replaces its log by part of the log of its term's leader,
      keeping every index at which the two already agreed. */
  ghost predicate Adoptable(s: View, v: NodeId, l: Log)
    requires v in s.nodes
  {
    var n := s.nodes[v];
    && n.role == Follower
    && n.term in s.h.elected && n.term in s.h.leaderLog
    && l <= s.h.leaderLog[n.term]
    && (forall i: nat | Agree(n.log, s.h.leaderLog[n.term], i) :: i < |l|)
  }

  /** Whatever the old log shared with the leader log is in the new one. */
  lemma AdoptKeeps(s: View, v: NodeId, l: Log, i: nat)
    requires v in s.nodes && Adoptable(s, v, l)
    requires Agree(s.nodes[v].log, s.h.leaderLog[s.nodes[v].term], i)
    ensures i < |l| && l[..i + 1] == s.nodes[v].log[..i + 1]
  {
    assert l[..i + 1] == s.h.leaderLog[s.nodes[v].term][..i + 1];
  }

  lemma AdoptedLog(ms: set<NodeId>, h: History, l: Log, t: Term)
    requires t in h.elected && ElectionOk(ms, h, t, h.elected[t]) && l <= h.leaderLog[t]
    ensures Good(h.leaderLog, l) && LastTerm(l) <= t
  {
    assert l == h.leaderLog[t][..|l|];
    GoodPrefix(h.leaderLog, h.leaderLog[t], |l|);
  }

  lemma AdoptSettled(ms: set<NodeId>, s: View, v: NodeId, l: Log)
    requires ElectionsOk(ms, s.h) && VotesOk(s) && CommitsOk(ms, s)
    requires v in s.nodes && Adoptable(s, v, l)
    requires Settled(s.h, s.nodes[v].log, s.nodes[v].commit, s.nodes[v].term)
    ensures s.nodes[v].commit < |l| && Settled(s.h, l, s.nodes[v].commit, s.nodes[v].term)
  {
    hide ElectionsOk, VotesOk, CommitsOk;
    var n := s.nodes[v];
    if 0 < n.commit {
      SettledInLeaderLog(ms, s, n.log, n.commit, n.term);
      AdoptKeeps(s, v, l, n.commit);
    }
  }

  lemma AdoptNodeOk(ms: set<NodeId>, s: View, v: NodeId, l: Log)
    requires Inv(ms, s) && v in ms && Adoptable(s, v, l)
    ensures NodeOk(ms, s.h, s.msgs, v, s.nodes[v].(log := l))
  {
    hide AcksOk, VotesOk, CommitsOk, BallotsOk, SlotsOk, MsgsOk, CandidateOk, LeaderOk, Good, ElectionOk, Settled;
    AdoptedLog(ms, s.h, l, s.nodes[v].term);
    AdoptSettled(ms, s, v, l);
  }

  /** A node acknowledges only in the term it is in. */
  lemma AckedBound(ms: set<NodeId>, s: View, t: Term, v: NodeId, i: nat)
    requires SlotTerms(ms, s) && MsgsOk(ms, s) && ElectionsOk(ms, s.h)
    requires v in ms && Acked(s, t, v, i)
    ensures t <= s.nodes[v].term
  {
    hide MsgOk, Good, AppendOk;
    if v == s.h.elected[t].leader {
      assert ElectionOk(ms, s.h, t, s.h.elected[t]);
      assert Slot(t, v) in s.h.cand;
    }
  }

  /** If every leader up to u kept index i of term t, the leader log of u has it. */
  lemma LeaderKeeps(ms: set<NodeId>, h: History, t: Term, i: nat, u: Term)
    requires ElectionsOk(ms, h) && u in h.elected && t <= u && t in h.elected
    requires t in h.leaderLog && i < |h.leaderLog[t]| && AllKeep(h, t, i, u)
    ensures u in h.leaderLog && Agree(h.leaderLog[u], h.leaderLog[t], i)
  {
    hide Good, Quorum;
    assert ElectionOk(ms, h, u, h.elected[u]);
    if t < u {
      AgreeExtend(h.leaderLog[t], h.elected[u].init, h.leaderLog[u], i);
    }
  }

  lemma AdoptAcks(ms: set<NodeId>, s: View, v: NodeId, l: Log)
    requires SlotTerms(ms, s) && MsgsOk(ms, s) && ElectionsOk(ms, s.h)
    requires AcksOk(s) && v in ms && Adoptable(s, v, l)
    ensures AcksOk(WithNode(s, v, s.nodes[v].(log := l)))
  {
    hide MsgsOk, ElectionOk, Adoptable;
    var n := s.nodes[v];
    var s' := WithNode(s, v, n.(log := l));
    forall t: Term, w: NodeId, i: nat ensures AckHeld(s', t, w, i) {
      assert AckHeld(s, t, w, i);
      assert Acked(s', t, w, i) ==> Acked(s, t, w, i);
      if w == v && Acked(s', t, w, i) && AllKeep(s.h, t, i, n.term) {
        AckedBound(ms, s, t, v, i);
        AdoptAck(ms, s, v, l, t, i);
      }
    }
  }

  lemma AdoptAck(ms: set<NodeId>, s: View, v: NodeId, l: Log, t: Term, i: nat)
    requires ElectionsOk(ms, s.h) && v in s.nodes && Adoptable(s, v, l)
    requires t <= s.nodes[v].term && t in s.h.elected && AllKeep(s.h, t, i, s.nodes[v].term)
    requires Agree(s.nodes[v].log, s.h.leaderLog[t], i)
    ensures Agree(l, s.h.leaderLog[t], i)
  {
    hide ElectionOk;
    LeaderKeeps(ms, s.h, t, i, s.nodes[v].term);
    AdoptKeeps(s, v, l, i);
  }

  lemma Adopt(ms: set<NodeId>, s: View, v: NodeId, l: Log)
    requires Inv(ms, s) && v in ms && Adoptable(s, v, l)
    ensures Inv(ms, WithNode(s, v, s.nodes[v].(log := l)))
  {
    hide AcksOk, VotesOk, CommitsOk, NodeOk, ElectionsOk, MsgsOk, Acked, Adoptable, Good;
    var s' := WithNode(s, v, s.nodes[v].(log := l));
    AdoptNodeOk(ms, s, v, l);
    NodeMoveBasic(ms, s, v, s.nodes[v].(log := l));
    AdoptAcks(ms, s, v, l);
    hide SlotsOk;
    NoNewAcks(s, s');
    ElectedVotersTerms(ms, s');
    SameVotes(s, s');
    SameCommits(ms, s, s');
  }
}
