/** Handling AppendEntries refines the protocol: the append loop adopts part of
    the leader's log, the commit index follows, and the reply acknowledges it. */
module RaftAppend {
  import opened RaftTypes
  import Spec = RaftSpec
  import opened RaftProtocol
  import opened RaftMoves
  import opened RaftRefine

  /** What the append loop did to l: nothing, because l already holds the leader
      log through index top, or it rebuilt the leader log through top and dropped
      (below the stable mark st) nothing the two had in common. */
  ghost predicate Merged(l: Log, leader: Log, top: nat, r: Log, st: nat) {
    || (r == l && st == LastIndex(l) && Agree(l, leader, top))
    || (top < |leader| && r == leader[..top + 1] && st <= LastIndex(r)
        && (forall i: nat | Agree(l, leader, i) :: i <= st))
  }

  /** Log matching between two logs. */
  ghost predicate Matching(a: Log, b: Log) {
    forall i: nat | i < |a| && i < |b| && a[i].term == b[i].term :: Agree(a, b, i)
  }

  ghost predicate Numbered(l: Log) {
    forall i | 0 < i < |l| :: l[i].index == i
  }

  lemma GoodMatching(ll: map<Term, Log>, a: Log, b: Log)
    requires Good(ll, a) && Good(ll, b)
    ensures Matching(a, b) && Numbered(b)
  {
    forall i: nat | i < |a| && i < |b| && a[i].term == b[i].term ensures Agree(a, b, i) {
      SameTermSameLog(ll, a, b, i);
    }
  }

  lemma MergeStep(l: Log, leader: Log, top: nat, r: Log, st: nat)
    requires Matching(l, leader) && Numbered(leader) && top + 1 < |leader|
    requires Merged(l, leader, top, r, st)
    ensures var (r', st') := Spec.MergeOne(r, st, leader[top + 1]); Merged(l, leader, top + 1, r', st')
  {
    var e := leader[top + 1];
    assert e.index == top + 1;
    if r == l && st == LastIndex(l) && Agree(l, leader, top) {
      if top + 1 < |l| && l[top + 1].term == e.term {
        assert Agree(l, leader, top + 1);
      } else {
        assert l[..top + 1] + [e] == leader[..top + 2];
        forall i: nat | Agree(l, leader, i) ensures i <= top {
          if top + 1 <= i {
            AgreeDown(l, leader, i, top + 1);
          }
        }
        if top + 1 == |l| {
          assert l[..top + 1] == l;
        }
      }
    } else {
      assert r + [e] == leader[..top + 2];
    }
  }

  /** The append loop adopts the leader's log through the last entry sent. */
  lemma {:induction false} MergeAdopts(l: Log, leader: Log, prev: nat, es: seq<Entry>)
    requires Matching(l, leader) && Numbered(leader)
    requires prev + |es| < |leader| && es == leader[prev + 1..prev + 1 + |es|]
    requires prev < |l| && l[prev].term == leader[prev].term
    ensures var (r, st) := Spec.Merge(l, LastIndex(l), es); Merged(l, leader, prev + |es|, r, st)
    decreases |es|
  {
    hide Matching, Numbered, Merged, Spec.MergeOne, Spec.Merge;
    if es == [] {
      MergeStart(l, leader, prev);
    } else {
      var k := |es| - 1;
      assert es[..k] == leader[prev + 1..prev + 1 + k] && es[k] == leader[prev + k + 1];
      MergeAdopts(l, leader, prev, es[..k]);
      var (r, st) := Spec.Merge(l, LastIndex(l), es[..k]);
      MergeSnoc(l, LastIndex(l), es);
      MergeStep(l, leader, prev + k, r, st);
    }
  }

  lemma MergeStart(l: Log, leader: Log, prev: nat)
    requires Matching(l, leader) && prev < |l| && prev < |leader| && l[prev].term == leader[prev].term
    ensures var (r, st) := Spec.Merge(l, LastIndex(l), []); Merged(l, leader, prev, r, st)
  {
    assert Agree(l, leader, prev);
  }

  lemma MergeSnoc(l: Log, stable: nat, es: seq<Entry>)
    requires es != []
    ensures var (r, st) := Spec.Merge(l, stable, es[..|es| - 1]);
            Spec.Merge(l, stable, es) == Spec.MergeOne(r, st, es[|es| - 1])
  {
    hide Spec.MergeOne;
  }

  /** The log of the loop does not depend on the stable mark it carries along. */
  lemma {:induction false} MergeLog(l: Log, a: nat, b: nat, es: seq<Entry>)
    ensures Spec.Merge(l, a, es).0 == Spec.Merge(l, b, es).0
    decreases |es|
  {
    if es != [] {
      MergeLog(l, a, b, es[..|es| - 1]);
    }
  }

  /** The entries match and the previous entry is there. */
  ghost predicate Accepts(n: Node, m: Message)
    requires m.AppendEntries?
  {
    m.prevLogIndex <= LastIndex(n.log) && TermAt(n.log, m.prevLogIndex) == m.prevLogTerm
  }

  lemma AcceptMerges(ms: set<NodeId>, s: View, v: NodeId, n: Node, m: Message)
    requires Inv(ms, s) && Live(ms, s, v, n) && m.AppendEntries? && m in s.msgs && m.term == n.term && Accepts(n, m)
    ensures AppendOk(s.h, m) && m.from in ms && m.from != m.to
    ensures Merged(n.log, s.h.leaderLog[n.term], m.prevLogIndex + |m.entries|,
                   Spec.Merge(n.log, LastIndex(n.log), m.entries).0,
                   Spec.Merge(n.log, LastIndex(n.log), m.entries).1)
  {
    hide AcksOk, VotesOk, CommitsOk, Good, BallotsOk, SlotTerms, SlotsOk, CandidateOk, LeaderOk, Settled;
    hide Merged, Spec.Merge, Quorum, Matching, Numbered;
    assert NodeOk(ms, s.h, s.msgs, v, s.nodes[v]);
    assert MsgOk(ms, s.h, m);
    assert ElectionOk(ms, s.h, n.term, s.h.elected[n.term]);
    GoodMatching(s.h.leaderLog, n.log, s.h.leaderLog[n.term]);
    MergeAdopts(n.log, s.h.leaderLog[n.term], m.prevLogIndex, m.entries);
  }

  /** Any durable cut of the rebuilt log is a log the protocol lets v adopt. */
  lemma CutAdoptable(s: View, v: NodeId, top: nat, r: Log, st: nat, l: Log)
    requires v in s.nodes && s.nodes[v].role == Follower
    requires s.nodes[v].term in s.h.elected && s.nodes[v].term in s.h.leaderLog
    requires Merged(s.nodes[v].log, s.h.leaderLog[s.nodes[v].term], top, r, st)
    requires st < |l| && l <= r
    ensures l == s.nodes[v].log || Adoptable(s, v, l)
  {
  }

  lemma MergedAgrees(l: Log, leader: Log, top: nat, r: Log, st: nat)
    requires Merged(l, leader, top, r, st)
    ensures Agree(r, leader, top)
  {
    if r == leader[..top + 1] {
      assert r[..top + 1] == r;
    }
  }

  /** After the loop the node's log agrees with the leader's through the last
      entry sent, and the protocol invariant holds with the new log. */
  lemma LoopKeeps(ms: set<NodeId>, s: View, v: NodeId, n: Node, m: Message)
    requires Inv(ms, s) && Live(ms, s, v, n) && n.role == Follower
    requires m.AppendEntries? && m in s.msgs && m.term == n.term && Accepts(n, m)
    ensures var r := Spec.Merge(n.log, n.stable, m.entries).0;
            && Inv(ms, WithNode(s, v, s.nodes[v].(log := r)))
            && AppendOk(s.h, m) && Agree(r, s.h.leaderLog[n.term], m.prevLogIndex + |m.entries|)
  {
    hide Inv, Merged, Spec.Merge, AppendOk;
    AcceptMerges(ms, s, v, n, m);
    var (r, st) := Spec.Merge(n.log, LastIndex(n.log), m.entries);
    MergeLog(n.log, n.stable, LastIndex(n.log), m.entries);
    AcceptFacts(s.h, m);
    MergedAgrees(n.log, s.h.leaderLog[n.term], m.prevLogIndex + |m.entries|, r, st);
    MergedLong(n.log, s.h.leaderLog[n.term], m.prevLogIndex + |m.entries|, r, st);
    CutAdoptable(s, v, m.prevLogIndex + |m.entries|, r, st, r);
    hide Adoptable;
    if r == n.log {
      assert WithNode(s, v, s.nodes[v].(log := r)) == s;
    } else {
      VInMs(ms, s, v, n);
      Adopt(ms, s, v, r);
    }
  }

  lemma VInMs(ms: set<NodeId>, s: View, v: NodeId, n: Node)
    requires Live(ms, s, v, n)
    ensures v in ms
  {
  }

  lemma AcceptFacts(h: History, m: Message)
    requires m.AppendEntries? && AppendOk(h, m)
    ensures m.term in h.elected && m.term in h.leaderLog && h.elected[m.term].leader == m.from
    ensures m.leaderCommit <= m.prevLogIndex + |m.entries| && Settled(h, h.leaderLog[m.term], m.leaderCommit, m.term)
  {
  }

  lemma MergedLong(l: Log, leader: Log, top: nat, r: Log, st: nat)
    requires Merged(l, leader, top, r, st)
    ensures st < |r|
  {
  }

  lemma SettledBy(h: History, a: Log, b: Log, c: nat, t: Term, top: nat)
    requires Settled(h, b, c, t) && Agree(a, b, top) && c <= top
    ensures Settled(h, a, c, t)
  {
    if c != 0 {
      AgreeDown(a, b, top, c);
    }
  }

  /** The commit index follows the leader's, inside the verified part. */
  lemma LearnKeeps(ms: set<NodeId>, s: View, v: NodeId, c: nat)
    requires Inv(ms, s) && v in ms && s.nodes[v].role == Follower
    requires c < |s.nodes[v].log| && Settled(s.h, s.nodes[v].log, c, s.nodes[v].term)
    ensures Inv(ms, WithNode(s, v, s.nodes[v].(commit := c)))
  {
    hide AcksOk, VotesOk, CommitsOk, Good, BallotsOk, SlotTerms, SlotsOk, ElectionsOk, MsgsOk, Settled;
    hide CandidateOk, LeaderOk;
    assert NodeOk(ms, s.h, s.msgs, v, s.nodes[v]);
    NodeMove(ms, s, v, s.nodes[v].(commit := c));
  }

  lemma AckKeeps(ms: set<NodeId>, s: View, v: NodeId, m: Message)
    requires Inv(ms, s) && v in ms && m.AppendEntries? && m in s.msgs && m.to == v && m.term == s.nodes[v].term
    requires m.term in s.h.leaderLog && Agree(s.nodes[v].log, s.h.leaderLog[m.term], m.prevLogIndex + |m.entries|)
    ensures Inv(ms, WithMsg(s, AppendEntriesResp(v, m.from, m.term, true, m.prevLogIndex + |m.entries|)))
  {
    hide AcksOk, VotesOk, CommitsOk, NodesOk, BallotsOk, SlotTerms, SlotsOk, ElectionsOk, Settled;
    assert MsgOk(ms, s.h, m);
    Acknowledge(ms, s, v, m.prevLogIndex + |m.entries|);
  }

  lemma AcceptKeeps(ms: set<NodeId>, s: View, v: NodeId, n: Node, m: Message)
    requires Inv(ms, s) && Live(ms, s, v, n) && n.role == Follower
    requires m.AppendEntries? && m in s.msgs && m.to == v && m.term == n.term && Accepts(n, m)
    ensures Inv(ms, WithMsg(WithNode(s, v, Abs(Spec.Accept(n, m))),
                            AppendEntriesResp(v, m.from, m.term, true, m.prevLogIndex + |m.entries|)))
  {
    hide Inv, Spec.Merge, AppendOk, Agree;
    var r := Spec.Merge(n.log, n.stable, m.entries).0;
    LoopKeeps(ms, s, v, n, m);
    AcceptFacts(s.h, m);
    VInMs(ms, s, v, n);
    var s1 := WithNode(s, v, s.nodes[v].(log := r));
    var s2 := WithNode(s, v, Abs(Spec.Accept(n, m)));
    var top := m.prevLogIndex + |m.entries|;
    AgreeLong(r, s.h.leaderLog[n.term], top);
    if m.leaderCommit > n.commit {
      SettledBy(s.h, r, s.h.leaderLog[n.term], m.leaderCommit, m.term, top);
      LearnKeeps(ms, s1, v, m.leaderCommit);
      assert s2 == WithNode(s1, v, s1.nodes[v].(commit := m.leaderCommit));
    } else {
      assert s2 == s1;
    }
    AckKeeps(ms, s2, v, m);
  }

  lemma AgreeLong(a: Log, b: Log, i: nat)
    requires Agree(a, b, i)
    ensures i < |a|
  {
  }

  lemma AppendKeeps(ms: set<NodeId>, s: View, v: NodeId, n: Node, m: Message)
    requires Inv(ms, s) && Live(ms, s, v, n) && n.role == Follower
    requires m.AppendEntries? && m in s.msgs && m.to == v && m.term == n.term
    ensures Inv(ms, After(s, v, Spec.HandleAppendEntries(n, m)))
  {
    hide AcksOk, VotesOk, CommitsOk, NodeOk, BallotsOk, SlotTerms, SlotsOk, ElectionsOk, AppendOk, Spec.Merge;
    var n' := Spec.HandleAppendEntries(n, m);
    RecordFollower(ms, s, v, Abs(n'));
    assert MsgOk(ms, s.h, m);
    if Accepts(n, m) {
      var n1 := n.(leader := m.from, electionElapsed := 0);
      var resp := AppendEntriesResp(v, m.from, m.term, true, m.prevLogIndex + |m.entries|);
      AcceptKeeps(ms, s, v, n1, m);
      SentOne(resp);
      assert n'.out == [resp];
      assert After(s, v, n') == WithMsg(WithNode(s, v, Abs(n')), resp);
    } else {
      var resp := AppendEntriesResp(v, m.from, n.term, false, 0);
      SentOne(resp);
      assert n'.out == [resp];
      Say(ms, s, resp);
      assert s.nodes[v := s.nodes[v]] == s.nodes;
      assert After(s, v, n') == WithMsg(s, resp);
    }
  }
}
