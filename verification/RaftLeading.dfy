/** The leader's own moves: committing by count and appending a proposal. */
module RaftLeading {
  import opened RaftTypes
  import opened RaftProtocol
  import opened RaftGrowth

  // ----------------------------------------------------------- committing

  ghost function Committed(s: View, v: NodeId, i: nat, q: set<NodeId>): View
    requires v in s.nodes
  {
    s.(nodes := s.nodes[v := s.nodes[v].(commit := i)],
       h := s.h.(commits := s.h.commits + {Commit(s.nodes[v].term, i, q)}))
  }

  /** Index i has the leader's own term and q is a majority that acknowledged it. */
  ghost predicate CanCommit(ms: set<NodeId>, s: View, v: NodeId, i: nat, q: set<NodeId>) {
    && v in s.nodes && s.nodes[v].role == Leader
    && i < |s.nodes[v].log| && s.nodes[v].log[i].term == s.nodes[v].term
    && Quorum(ms, q) && (forall w | w in q :: Acked(s, s.nodes[v].term, w, i))
  }

  lemma CommitNodes(ms: set<NodeId>, s: View, v: NodeId, i: nat, q: set<NodeId>)
    requires NodesOk(ms, s) && v in ms && CanCommit(ms, s, v, i, q)
    ensures NodesOk(ms, Committed(s, v, i, q))
  {
    hide Good, Quorum, Acked, Settled;
    var s' := Committed(s, v, i, q);
    forall w | w in ms ensures NodeOk(ms, s'.h, s'.msgs, w, s'.nodes[w]) {
      assert NodeOk(ms, s.h, s.msgs, w, s.nodes[w]);
      NodeGrows(ms, s.h, s'.h, s.msgs, w, s.nodes[w]);
      if w == v {
        CommittedSettled(s'.h, Commit(s.nodes[v].term, i, q), s.nodes[v].log);
      }
    }
  }

  lemma CommittedSettled(h: History, k: Commit, l: Log)
    requires k in h.commits && k.term in h.leaderLog && h.leaderLog[k.term] == l && k.index < |l|
    ensures Settled(h, l, k.index, k.term)
  {
  }

  /** Votes and candidacies stay in step while no term or vote changes. */
  lemma SameBallots(ms: set<NodeId>, s: View, s': View)
    requires BallotsOk(ms, s) && SlotTerms(ms, s)
    requires s'.nodes.Keys == ms && s'.h.ballots == s.h.ballots && s'.h.cand == s.h.cand
    requires forall v | v in ms :: s.nodes[v].term == s'.nodes[v].term && s.nodes[v].vote == s'.nodes[v].vote
    ensures BallotsOk(ms, s') && SlotTerms(ms, s')
  {
  }

  lemma CommitBasic(ms: set<NodeId>, s: View, v: NodeId, i: nat, q: set<NodeId>)
    requires Basic(ms, s) && v in ms && CanCommit(ms, s, v, i, q)
    ensures Basic(ms, Committed(s, v, i, q))
  {
    hide NodeOk, BallotsOk, SlotTerms, ElectionsOk, MsgsOk, SlotsOk, CanCommit;
    CommitNodes(ms, s, v, i, q);
    SameBallots(ms, s, Committed(s, v, i, q));
    MsgsGrow(ms, s, Committed(s, v, i, q));
    ElectionsKept(ms, s.h, Committed(s, v, i, q).h);
    SlotsGrow(s.h, Committed(s, v, i, q).h);
  }

  lemma CommitAcks(s: View, v: NodeId, i: nat, q: set<NodeId>)
    requires AcksOk(s) && v in s.nodes
    ensures AcksOk(Committed(s, v, i, q))
    ensures forall t: Term, w: NodeId, j: nat :: Acked(Committed(s, v, i, q), t, w, j) == Acked(s, t, w, j)
  {
    var s' := Committed(s, v, i, q);
    forall t: Term, w: NodeId, j: nat ensures AckHeld(s', t, w, j) {
      assert AckHeld(s, t, w, j);
    }
  }

  lemma CommitVotes(ms: set<NodeId>, s: View, v: NodeId, i: nat, q: set<NodeId>)
    requires BallotsOk(ms, s) && ElectionsOk(ms, s.h) && AcksOk(s) && VotesOk(s) && v in ms
    ensures VotesOk(Committed(s, v, i, q))
  {
    hide Carries, Acked, Good, Quorum;
    var s' := Committed(s, v, i, q);
    CommitAcks(s, v, i, q);
    assert forall t: Term, j: nat, u: int :: AllKeep(s'.h, t, j, u) == AllKeep(s.h, t, j, u);
    hide AcksOk;
    forall b | b in s'.h.ballots && b.term !in s'.h.elected ensures Carries(s', b.term, b.voter, b.cand) {
      SameCarries(s, s', b.term, b.voter, b.cand);
    }
    forall u, w | u in s'.h.elected && w in s'.h.elected[u].voters ensures Carries(s', u, w, s'.h.elected[u].leader) {
      assert ElectionOk(ms, s.h, u, s.h.elected[u]);
      SameCarries(s, s', u, w, s.h.elected[u].leader);
    }
  }

  lemma CommitCommits(ms: set<NodeId>, s: View, v: NodeId, i: nat, q: set<NodeId>)
    requires NodesOk(ms, s) && AcksOk(s) && CommitsOk(ms, s) && v in ms && CanCommit(ms, s, v, i, q)
    ensures CommitsOk(ms, Committed(s, v, i, q))
  {
    hide NodeOk, AcksOk, CommitOk, CanCommit;
    NewCommitOk(ms, s, v, i, q);
    CommitsGrow(ms, s, Committed(s, v, i, q));
  }

  lemma NewCommitOk(ms: set<NodeId>, s: View, v: NodeId, i: nat, q: set<NodeId>)
    requires NodesOk(ms, s) && AcksOk(s) && v in ms && CanCommit(ms, s, v, i, q)
    ensures CommitOk(ms, Committed(s, v, i, q), Commit(s.nodes[v].term, i, q))
  {
    hide Good, Acked, Quorum, PeerOk, AcksOk, Settled;
    assert NodeOk(ms, s.h, s.msgs, v, s.nodes[v]);
    CommitAcks(s, v, i, q);
  }

  /** A leader commits an index of its own term held by a majority. */
  lemma CommitMove(ms: set<NodeId>, s: View, v: NodeId, i: nat, q: set<NodeId>)
    requires Inv(ms, s) && v in ms && CanCommit(ms, s, v, i, q)
    ensures Inv(ms, Committed(s, v, i, q))
  {
    hide NodeOk, BallotsOk, ElectionsOk, MsgsOk, SlotsOk, AcksOk, VotesOk, CommitsOk, CanCommit;
    CommitBasic(ms, s, v, i, q);
    CommitAcks(s, v, i, q);
    CommitVotes(ms, s, v, i, q);
    CommitCommits(ms, s, v, i, q);
  }

  // ------------------------------------------------------------ proposing

  ghost function Longer(s: View, v: NodeId, data: Bytes): Log
    requires v in s.nodes
  {
    s.nodes[v].log + [Entry(s.nodes[v].term, |s.nodes[v].log|, data)]
  }

  ghost function Proposed(s: View, v: NodeId, data: Bytes): View
    requires v in s.nodes
  {
    s.(nodes := s.nodes[v := s.nodes[v].(log := Longer(s, v, data))],
       h := s.h.(leaderLog := s.h.leaderLog[s.nodes[v].term := Longer(s, v, data)]))
  }

  ghost predicate Leads(ms: set<NodeId>, s: View, v: NodeId) {
    && v in s.nodes && s.nodes[v].role == Leader
    && LeaderOk(ms, s.h, s.msgs, v, s.nodes[v])
  }

  lemma LeaderLeads(ms: set<NodeId>, s: View, v: NodeId)
    requires NodesOk(ms, s) && v in ms && s.nodes[v].role == Leader
    ensures Leads(ms, s, v)
  {
    assert NodeOk(ms, s.h, s.msgs, v, s.nodes[v]);
    hide LeaderOk;
  }

  lemma ProposeGrows(ms: set<NodeId>, s: View, v: NodeId, data: Bytes)
    requires Leads(ms, s, v)
    ensures Grows(s.h, Proposed(s, v, data).h)
  {
  }

  lemma LongerGood(ms: set<NodeId>, s: View, v: NodeId, data: Bytes)
    requires Leads(ms, s, v)
    requires Good(s.h.leaderLog, s.nodes[v].log) && LastTerm(s.nodes[v].log) <= s.nodes[v].term && 0 < s.nodes[v].term
    ensures Good(Proposed(s, v, data).h.leaderLog, Longer(s, v, data))
  {
    var a, b := s.nodes[v].log, Longer(s, v, data);
    var ll := Proposed(s, v, data).h.leaderLog;
    ProposeGrows(ms, s, v, data);
    GoodExtends(s.h.leaderLog, ll, a);
    forall i | 0 < i < |b| ensures b[i].term in ll && Agree(b, ll[b[i].term], i) {
      if i < |a| {
        assert a[i] == b[i];
        AgreeExtend(ll[a[i].term], a, b, i);
      }
    }
  }

  lemma ProposerNode(ms: set<NodeId>, s: View, v: NodeId, data: Bytes)
    requires Leads(ms, s, v) && NodeOk(ms, s.h, s.msgs, v, s.nodes[v]) && 0 < s.nodes[v].term
    ensures var s' := Proposed(s, v, data); NodeOk(ms, s'.h, s'.msgs, v, s'.nodes[v])
  {
    var s' := Proposed(s, v, data);
    var n := s.nodes[v];
    LongerGood(ms, s, v, data);
    ProposeGrows(ms, s, v, data);
    hide Good;
    SettledGrows(s.h, s'.h, n.log, n.commit, n.term);
    SettledLonger(s'.h, n.log, s'.nodes[v].log, n.commit, n.term);
    hide Settled;
    forall p | p in ms && p != v ensures PeerOk(s'.msgs, v, s'.nodes[v], p) {
      assert PeerOk(s.msgs, v, n, p);
    }
  }

  lemma ProposeNodes(ms: set<NodeId>, s: View, v: NodeId, data: Bytes)
    requires NodesOk(ms, s) && v in ms && Leads(ms, s, v) && 0 < s.nodes[v].term
    ensures NodesOk(ms, Proposed(s, v, data))
  {
    hide Good, Settled, PeerOk, Longer;
    ProposeGrows(ms, s, v, data);
    var s' := Proposed(s, v, data);
    forall w | w in ms ensures NodeOk(ms, s'.h, s'.msgs, w, s'.nodes[w]) {
      assert NodeOk(ms, s.h, s.msgs, w, s.nodes[w]);
      if w == v {
        ProposerNode(ms, s, v, data);
      } else {
        NodeGrows(ms, s.h, s'.h, s.msgs, w, s.nodes[w]);
      }
    }
  }

  lemma ProposeElection(ms: set<NodeId>, s: View, v: NodeId, data: Bytes)
    requires Leads(ms, s, v) && ElectionOk(ms, s.h, s.nodes[v].term, s.h.elected[s.nodes[v].term])
    requires 0 < s.nodes[v].term
    ensures var h := Proposed(s, v, data).h; ElectionOk(ms, h, s.nodes[v].term, h.elected[s.nodes[v].term])
  {
    LongerGood(ms, s, v, data);
    hide Good, Quorum, PeerOk;
  }

  lemma ProposeElections(ms: set<NodeId>, s: View, v: NodeId, data: Bytes)
    requires ElectionsOk(ms, s.h) && Leads(ms, s, v) && 0 < s.nodes[v].term
    ensures ElectionsOk(ms, Proposed(s, v, data).h)
  {
    hide Good, Quorum, PeerOk, Longer;
    var h := Proposed(s, v, data).h;
    ProposeGrows(ms, s, v, data);
    forall t | t in h.elected ensures ElectionOk(ms, h, t, h.elected[t]) {
      assert ElectionOk(ms, s.h, t, s.h.elected[t]);
      if t == s.nodes[v].term {
        ProposeElection(ms, s, v, data);
      } else {
        GoodExtends(s.h.leaderLog, h.leaderLog, s.h.leaderLog[t]);
      }
    }
  }

  lemma LeaderTermPositive(ms: set<NodeId>, s: View, v: NodeId)
    requires SlotsOk(s.h) && ElectionsOk(ms, s.h) && Leads(ms, s, v)
    ensures 0 < s.nodes[v].term
  {
    assert ElectionOk(ms, s.h, s.nodes[v].term, s.h.elected[s.nodes[v].term]);
    hide Good, Quorum, PeerOk;
    assert Slot(s.nodes[v].term, v) in s.h.cand;
  }

  lemma ProposeBasic(ms: set<NodeId>, s: View, v: NodeId, data: Bytes)
    requires Basic(ms, s) && v in ms && Leads(ms, s, v)
    ensures Basic(ms, Proposed(s, v, data))
  {
    hide NodeOk, BallotsOk, SlotTerms, ElectionsOk, MsgsOk, SlotsOk, Leads, Longer, Grows;
    SameBallots(ms, s, Proposed(s, v, data));
    LeaderTermPositive(ms, s, v);
    ProposeGrows(ms, s, v, data);
    ProposeNodes(ms, s, v, data);
    ProposeElections(ms, s, v, data);
    MsgsGrow(ms, s, Proposed(s, v, data));
    SlotsGrow(s.h, Proposed(s, v, data).h);
  }

  /** Only the leader itself holds the entry it has just appended. */
  lemma ProposeAcked(ms: set<NodeId>, s: View, v: NodeId, data: Bytes, t: Term, w: NodeId, i: nat)
    requires MsgsOk(ms, s) && Leads(ms, s, v)
    requires Acked(Proposed(s, v, data), t, w, i)
    ensures t in s.h.leaderLog
    ensures (w == v && t == s.nodes[v].term && i == |s.nodes[v].log|) || (Acked(s, t, w, i) && i < |s.h.leaderLog[t]|)
  {
    hide PeerOk, AppendOk;
  }

  lemma CurrentBack(h: History, h': History, t: Term, i: nat)
    requires Grows(h, h') && t in h.leaderLog && i < |h.leaderLog[t]|
    ensures Current(h, t, i) == Current(h', t, i)
  {
  }

  lemma ProposeAcks(ms: set<NodeId>, s: View, v: NodeId, data: Bytes)
    requires MsgsOk(ms, s) && AcksOk(s) && Leads(ms, s, v)
    ensures AcksOk(Proposed(s, v, data))
  {
    ProposeGrows(ms, s, v, data);
    hide PeerOk, MsgsOk, Grows;
    var s' := Proposed(s, v, data);
    forall t: Term, w: NodeId, i: nat ensures AckHeld(s', t, w, i) {
      if w in s.nodes && Acked(s', t, w, i) && AllKeep(s'.h, t, i, s'.nodes[w].term) {
        ProposeAcked(ms, s, v, data, t, w, i);
        if !(w == v && t == s.nodes[v].term && i == |s.nodes[v].log|) {
          AllKeepBack(s.h, s'.h, t, i, s'.nodes[w].term);
          assert AckHeld(s, t, w, i);
          ProposeHeld(ms, s, v, data, t, w, i);
        }
      }
    }
  }

  lemma ProposeHeld(ms: set<NodeId>, s: View, v: NodeId, data: Bytes, t: Term, w: NodeId, i: nat)
    requires Leads(ms, s, v) && w in s.nodes && t in s.h.leaderLog && Agree(s.nodes[w].log, s.h.leaderLog[t], i)
    ensures var s' := Proposed(s, v, data); Agree(s'.nodes[w].log, s'.h.leaderLog[t], i)
  {
    var s' := Proposed(s, v, data);
    AgreeExtend(s.h.leaderLog[t], s.nodes[w].log, s'.nodes[w].log, i);
    AgreeExtend(s'.nodes[w].log, s.h.leaderLog[t], s'.h.leaderLog[t], i);
  }

  lemma ProposeCarries(ms: set<NodeId>, s: View, v: NodeId, data: Bytes, u: Term, w: NodeId, c: NodeId)
    requires MsgsOk(ms, s) && Leads(ms, s, v)
    requires w in s.nodes && u <= s.nodes[w].term
    requires Carries(s, u, w, c) && Slot(u, c) in s.h.cand
    ensures Carries(Proposed(s, v, data), u, w, c)
  {
    ProposeGrows(ms, s, v, data);
    hide MsgsOk, Carries, PeerOk;
    var s' := Proposed(s, v, data);
    forall t: Term, i: nat | t < u && Acked(s', t, w, i) && Current(s'.h, t, i) && AllKeep(s'.h, t, i, u - 1)
      ensures Acked(s, t, w, i) && Current(s.h, t, i) && AllKeep(s.h, t, i, u - 1)
    {
      ProposeAcked(ms, s, v, data, t, w, i);
      CurrentBack(s.h, s'.h, t, i);
      AllKeepBack(s.h, s'.h, t, i, u - 1);
    }
    SameCarries(s, s', u, w, c);
  }

  lemma ProposeVotes(ms: set<NodeId>, s: View, v: NodeId, data: Bytes)
    requires MsgsOk(ms, s) && BallotsOk(ms, s) && ElectionsOk(ms, s.h) && VotesOk(s) && Leads(ms, s, v)
    ensures VotesOk(Proposed(s, v, data))
  {
    assert v in s.nodes;
    hide Good, MsgsOk, Carries, Quorum, Leads, Longer;
    var s' := Proposed(s, v, data);
    forall b | b in s'.h.ballots && b.term !in s'.h.elected ensures Carries(s', b.term, b.voter, b.cand) {
      ProposeCarries(ms, s, v, data, b.term, b.voter, b.cand);
    }
    forall u, w | u in s'.h.elected && w in s'.h.elected[u].voters ensures Carries(s', u, w, s'.h.elected[u].leader) {
      assert ElectionOk(ms, s.h, u, s.h.elected[u]);
      assert Ballot(u, w, s.h.elected[u].leader) in s.h.ballots;
      ProposeCarries(ms, s, v, data, u, w, s'.h.elected[u].leader);
    }
  }

  /** A leader appends an entry of its own term. */
  lemma ProposeMove(ms: set<NodeId>, s: View, v: NodeId, data: Bytes)
    requires Inv(ms, s) && v in ms && s.nodes[v].role == Leader
    ensures Inv(ms, Proposed(s, v, data))
  {
    hide NodeOk, BallotsOk, ElectionsOk, MsgsOk, SlotsOk, AcksOk, VotesOk, CommitOk, Leads, Longer, Grows;
    LeaderLeads(ms, s, v);
    ProposeGrows(ms, s, v, data);
    ProposeBasic(ms, s, v, data);
    ProposeAcks(ms, s, v, data);
    ProposeVotes(ms, s, v, data);
    CommitsGrow(ms, s, Proposed(s, v, data));
  }
}
