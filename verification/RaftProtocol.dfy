/** Raft as a protocol over a whole cluster.

    A View is what the safety argument looks at: the safety-relevant fields of
    every node, every message ever sent (so loss, duplication and reordering need
    no modelling), and a history of votes, elections, leader logs and commits.
    The protocol is a small set of primitive moves; each keeps Inv. */
module RaftProtocol {
  import opened RaftTypes

  /** The fields of a node that the protocol depends on. */
  datatype Replica = Replica(
    role: Role, term: Term, vote: NodeId, log: Log, commit: nat,
    votes: set<NodeId>, next: map<NodeId, nat>, matched: map<NodeId, nat>)

  datatype Ballot = Ballot(term: Term, voter: NodeId, cand: NodeId)
  datatype Slot = Slot(term: Term, id: NodeId)
  datatype Election = Election(leader: NodeId, init: Log, voters: set<NodeId>)
  datatype Commit = Commit(term: Term, index: nat, holders: set<NodeId>)

  /** ballots: every vote cast; cand: the log each candidate stood with;
      elected: who won a term, with which log and by whose votes;
      leaderLog: the longest log the leader of a term has had;
      commits: every index a leader committed by counting replicas. */
  datatype History = History(
    ballots: set<Ballot>,
    cand: map<Slot, Log>,
    elected: map<Term, Election>,
    leaderLog: map<Term, Log>,
    commits: set<Commit>)

  datatype View = View(nodes: map<NodeId, Replica>, msgs: set<Message>, h: History)

  // ---------------------------------------------------------------- logs

  lemma AgreeDown(a: seq<Entry>, b: seq<Entry>, i: nat, j: nat)
    requires Agree(a, b, i) && j <= i
    ensures Agree(a, b, j) && a[j] == b[j]
  {
    assert a[..j + 1] == a[..i + 1][..j + 1];
    assert b[..j + 1] == b[..i + 1][..j + 1];
    assert a[j] == a[..i + 1][j] && b[j] == b[..i + 1][j];
  }

  lemma AgreeExtend(a: seq<Entry>, b: seq<Entry>, c: seq<Entry>, i: nat)
    requires b <= c && i < |b|
    ensures Agree(a, b, i) <==> Agree(a, c, i)
  {
    assert b[..i + 1] == c[..i + 1];
  }

  lemma AgreePrefix(a: seq<Entry>, b: seq<Entry>)
    requires 0 < |a| && a <= b
    ensures Agree(a, b, |a| - 1)
  {
    assert a[..|a|] == a;
  }

  /** Every prefix of the log that ends in an entry of term t is a prefix of the
      log of the leader of t; positions are consecutive and terms never fall. */
  ghost predicate Good(ll: map<Term, Log>, l: Log) {
    && l[0] == SENTINEL
    && (forall i | 0 < i < |l| :: l[i].index == i && 0 < l[i].term)
    && (forall i, j | 0 <= i <= j < |l| :: l[i].term <= l[j].term)
    && (forall i | 0 < i < |l| :: l[i].term in ll && Agree(l, ll[l[i].term], i))
  }

  ghost predicate Extends(a: map<Term, Log>, b: map<Term, Log>) {
    forall t | t in a :: t in b && a[t] <= b[t]
  }

  lemma GoodExtends(a: map<Term, Log>, b: map<Term, Log>, l: Log)
    requires Extends(a, b) && Good(a, l)
    ensures Good(b, l)
  {
    forall i | 0 < i < |l| ensures l[i].term in b && Agree(l, b[l[i].term], i) {
      AgreeExtend(l, a[l[i].term], b[l[i].term], i);
    }
  }

  lemma GoodPrefix(ll: map<Term, Log>, l: Log, k: nat)
    requires Good(ll, l) && 0 < k <= |l|
    ensures Good(ll, l[..k])
    ensures LastTerm(l[..k]) <= LastTerm(l)
  {
    forall i | 0 < i < k ensures Agree(l[..k], ll[l[i].term], i) {
      assert l[..k][..i + 1] == l[..i + 1];
    }
  }

  /** Same term at the same index: same history. */
  lemma SameTermSameLog(ll: map<Term, Log>, a: Log, b: Log, i: nat)
    requires Good(ll, a) && Good(ll, b)
    requires i < |a| && i < |b| && a[i].term == b[i].term
    ensures Agree(a, b, i)
  {
    if i == 0 {
      assert a[..1] == [SENTINEL] == b[..1];
    }
  }

  // ---------------------------------------------------------- invariants

  ghost predicate Quorum(ms: set<NodeId>, q: set<NodeId>) {
    q <= ms && 2 * |q| > |ms|
  }

  lemma {:induction false} SubsetCard(a: set<NodeId>, b: set<NodeId>)
    requires a <= b
    ensures |a| <= |b|
  {
    if a != {} {
      var x :| x in a;
      SubsetCard(a - {x}, b - {x});
    }
  }

  lemma QuorumsMeet(ms: set<NodeId>, a: set<NodeId>, b: set<NodeId>) returns (v: NodeId)
    requires Quorum(ms, a) && Quorum(ms, b)
    ensures v in a && v in b
  {
    if a * b == {} {
      assert |a + b| == |a| + |b|;
      SubsetCard(a + b, ms);
    }
    v :| v in a * b;
  }

  /** The leader of t committed index i of its own term. */
  ghost predicate Current(h: History, t: Term, i: nat) {
    t in h.leaderLog && i < |h.leaderLog[t]| && h.leaderLog[t][i].term == t
  }

  /** Some quorum-committed index covers c, and l holds what was committed. */
  ghost predicate Settled(h: History, l: seq<Entry>, c: nat, t: Term) {
    c == 0 || exists k :: k in h.commits && k.term <= t && c <= k.index && k.term in h.leaderLog
                          && Agree(l, h.leaderLog[k.term], c)
  }

  ghost predicate PeerOk(msgs: set<Message>, v: NodeId, n: Replica, p: NodeId) {
    && p in n.next && p in n.matched
    && 1 <= n.next[p] <= |n.log|
    && n.matched[p] < |n.log|
    && (n.matched[p] == 0 || AppendEntriesResp(p, v, n.term, true, n.matched[p]) in msgs)
  }

  ghost predicate CandidateOk(ms: set<NodeId>, h: History, v: NodeId, n: Replica) {
    && Slot(n.term, v) in h.cand && h.cand[Slot(n.term, v)] == n.log
    && n.vote == v
    && n.votes <= ms
    && (forall w | w in n.votes :: Ballot(n.term, w, v) in h.ballots)
    && (n.term in h.elected ==> h.elected[n.term].leader != v)
  }

  ghost predicate LeaderOk(ms: set<NodeId>, h: History, msgs: set<Message>, v: NodeId, n: Replica) {
    && n.term in h.elected && h.elected[n.term].leader == v
    && n.term in h.leaderLog && h.leaderLog[n.term] == n.log
    && n.vote == v
    && (forall p | p in ms && p != v :: PeerOk(msgs, v, n, p))
  }

  ghost predicate NodeOk(ms: set<NodeId>, h: History, msgs: set<Message>, v: NodeId, n: Replica) {
    && Good(h.leaderLog, n.log)
    && LastTerm(n.log) <= n.term
    && (n.vote != 0 ==> Ballot(n.term, v, n.vote) in h.ballots)
    && n.commit < |n.log|
    && Settled(h, n.log, n.commit, n.term)
    && (n.role == Candidate ==> CandidateOk(ms, h, v, n))
    && (n.role == Leader ==> LeaderOk(ms, h, msgs, v, n))
  }

  ghost predicate NodesOk(ms: set<NodeId>, s: View) {
    && 0 !in ms
    && s.nodes.Keys == ms
    && (forall v | v in ms :: NodeOk(ms, s.h, s.msgs, v, s.nodes[v]))
  }

  /** Votes are unique per term, and a node still in the term remembers its vote. */
  ghost predicate BallotsOk(ms: set<NodeId>, s: View) {
    && s.nodes.Keys == ms
    && (forall b | b in s.h.ballots ::
          b.voter in ms && b.cand in ms && Slot(b.term, b.cand) in s.h.cand && b.term <= s.nodes[b.voter].term
          && (b.term == s.nodes[b.voter].term ==> s.nodes[b.voter].vote == b.cand))
    && (forall a, b | a in s.h.ballots && b in s.h.ballots && a.term == b.term && a.voter == b.voter ::
          a.cand == b.cand)
  }

  ghost predicate SlotTerms(ms: set<NodeId>, s: View) {
    s.nodes.Keys == ms && forall k | k in s.h.cand :: k.id in ms && k.term <= s.nodes[k.id].term
  }

  /** Candidates stand with good logs, older than the term they stand for. */
  ghost predicate SlotsOk(h: History) {
    forall k | k in h.cand :: Good(h.leaderLog, h.cand[k]) && LastTerm(h.cand[k]) < k.term
  }

  ghost predicate ElectionOk(ms: set<NodeId>, h: History, t: Term, e: Election) {
    && t in h.leaderLog
    && Quorum(ms, e.voters)
    && (forall v | v in e.voters :: Ballot(t, v, e.leader) in h.ballots)
    && Slot(t, e.leader) in h.cand && h.cand[Slot(t, e.leader)] == e.init
    && e.init <= h.leaderLog[t]
    && Good(h.leaderLog, h.leaderLog[t])
    && (forall i | 0 <= i < |h.leaderLog[t]| :: h.leaderLog[t][i].term < t <==> i < |e.init|)
    && LastTerm(h.leaderLog[t]) <= t
  }

  ghost predicate ElectionsOk(ms: set<NodeId>, h: History) {
    && h.leaderLog.Keys == h.elected.Keys
    && (forall t | t in h.elected :: ElectionOk(ms, h, t, h.elected[t]))
  }

  ghost predicate AppendOk(h: History, m: Message)
    requires m.AppendEntries?
  {
    && m.term in h.elected && h.elected[m.term].leader == m.from
    && m.term in h.leaderLog
    && m.prevLogIndex + |m.entries| < |h.leaderLog[m.term]|
    && h.leaderLog[m.term][m.prevLogIndex].term == m.prevLogTerm
    && m.entries == h.leaderLog[m.term][m.prevLogIndex + 1..m.prevLogIndex + 1 + |m.entries|]
    && m.leaderCommit <= m.prevLogIndex + |m.entries|
    && Settled(h, h.leaderLog[m.term], m.leaderCommit, m.term)
  }

  /** What a message in flight guarantees for ever. */
  ghost predicate MsgOk(ms: set<NodeId>, h: History, m: Message) {
    && m.from in ms && m.to in ms && m.from != m.to
    && match m
       case RequestVote(from, _, t, idx, lt) =>
         Slot(t, from) in h.cand && idx == LastIndex(h.cand[Slot(t, from)]) && lt == LastTerm(h.cand[Slot(t, from)])
       case RequestVoteResp(from, to, t, granted) =>
         granted ==> Ballot(t, from, to) in h.ballots
       case AppendEntries(_, _, _, _, _, _, _) => AppendOk(h, m)
       case AppendEntriesResp(_, to, t, success, k) =>
         success ==> t in h.elected && h.elected[t].leader == to && t in h.leaderLog && k < |h.leaderLog[t]|
  }

  ghost predicate MsgsOk(ms: set<NodeId>, s: View) {
    s.nodes.Keys == ms && forall m | m in s.msgs :: m.from in ms && m.term <= s.nodes[m.from].term && MsgOk(ms, s.h, m)
  }

  /** v has told the leader of t that it holds that leader's log through i. */
  ghost predicate Acked(s: View, t: Term, v: NodeId, i: nat) {
    && t in s.h.elected && t in s.h.leaderLog && i < |s.h.leaderLog[t]|
    && (v == s.h.elected[t].leader
        || exists k :: k >= i && AppendEntriesResp(v, s.h.elected[t].leader, t, true, k) in s.msgs)
  }

  /** Every leader elected after t and no later than upTo started with the log of
      the leader of t through i. */
  ghost predicate AllKeep(h: History, t: Term, i: nat, upTo: int) {
    t in h.leaderLog && forall u | u in h.elected && t < u <= upTo :: Agree(h.elected[u].init, h.leaderLog[t], i)
  }

  /** An acknowledged entry is still held, unless a later leader lacked it. */
  ghost predicate AckHeld(s: View, t: Term, v: NodeId, i: nat) {
    (Acked(s, t, v, i) && v in s.nodes && AllKeep(s.h, t, i, s.nodes[v].term)) ==>
      Agree(s.nodes[v].log, s.h.leaderLog[t], i)
  }

  ghost predicate AcksOk(s: View) {
    forall t: Term, v: NodeId, i: nat :: AckHeld(s, t, v, i)
  }

  /** A vote of v for c in term u carries what v acknowledged over to c's log,
      unless a leader elected in between lacked it. */
  ghost predicate CarriesOne(s: View, u: Term, v: NodeId, c: NodeId, t: Term, i: nat) {
    (t < u && Acked(s, t, v, i) && Current(s.h, t, i) && AllKeep(s.h, t, i, u - 1) && Slot(u, c) in s.h.cand) ==>
      Agree(s.h.cand[Slot(u, c)], s.h.leaderLog[t], i)
  }

  ghost predicate Carries(s: View, u: Term, v: NodeId, c: NodeId) {
    forall t: Term, i: nat :: CarriesOne(s, u, v, c, t, i)
  }

  ghost predicate VotesOk(s: View) {
    && (forall b | b in s.h.ballots && b.term !in s.h.elected :: Carries(s, b.term, b.voter, b.cand))
    && (forall u, v | u in s.h.elected && v in s.h.elected[u].voters :: Carries(s, u, v, s.h.elected[u].leader))
  }

  ghost predicate CommitOk(ms: set<NodeId>, s: View, k: Commit) {
    && Current(s.h, k.term, k.index)
    && Quorum(ms, k.holders)
    && (forall q | q in k.holders :: Acked(s, k.term, q, k.index))
  }

  ghost predicate CommitsOk(ms: set<NodeId>, s: View) {
    forall k | k in s.h.commits :: CommitOk(ms, s, k)
  }

  /** Who holds what: nodes, votes, elections and messages agree. */
  ghost predicate Basic(ms: set<NodeId>, s: View) {
    && NodesOk(ms, s)
    && BallotsOk(ms, s)
    && SlotTerms(ms, s)
    && SlotsOk(s.h)
    && ElectionsOk(ms, s.h)
    && MsgsOk(ms, s)
  }

  ghost predicate Inv(ms: set<NodeId>, s: View) {
    Basic(ms, s) && AcksOk(s) && VotesOk(s) && CommitsOk(ms, s)
  }
}
