/** Logical time: elections start exactly when the timeout has passed, and a leader's
    heartbeats reach every other member exactly once per period. */
module RaftTiming {
  import opened RaftTypes
  import Spec = RaftSpec
  import opened RaftRefine
  import opened RaftCalls
  import opened RaftElection

  function Ticks(n: Node, k: nat): Node {
    if k == 0 then n else Spec.Tick(Ticks(n, k - 1))
  }

  /** Before its timeout a node that hears nothing does nothing but count. */
  lemma {:induction false} Waits(n: Node, k: nat)
    requires n.role != Leader && (k > 0 ==> n.electionElapsed + k < n.config.electionTimeout)
    ensures Ticks(n, k) == n.(electionElapsed := n.electionElapsed + k)
  {
    hide Spec.BecomeCandidate;
    if k > 0 {
      Waits(n, k - 1);
    }
  }

  /** The tick at which the timeout has passed starts an election. */
  lemma TimesOut(ms: set<NodeId>, v: NodeId, n: Node, k: nat)
    requires ConfigOk(ms, v, n.config) && |ms| > 1 && n.role != Leader
    requires k > 0 && n.electionElapsed + k == n.config.electionTimeout
    ensures var c := Ticks(n, k);
            && c.role == Candidate && c.term == n.term + 1 && c.vote == v && c.log == n.log
            && forall p | p in ms && p != v :: Request(c, p) in c.out
  {
    hide Spec.Tick;
    Waits(n, k - 1);
    var n1 := Ticks(n, k - 1);
    Stands(ms, v, n1);
    var c := Spec.Tick(n1);
    forall p | p in ms && p != v ensures Request(c, p) in c.out {
      assert Request(c, p) in c.out[|n1.out|..];
    }
  }

  /** Between heartbeats a leader does nothing but count. */
  lemma {:induction false} Rests(n: Node, k: nat)
    requires n.role == Leader && (k > 0 ==> n.heartbeatElapsed + k < n.config.heartbeatTimeout)
    ensures Ticks(n, k) == n.(heartbeatElapsed := n.heartbeatElapsed + k)
  {
    hide Spec.Broadcast;
    if k > 0 {
      Rests(n, k - 1);
    }
  }

  /** What a leader sends to p: its entries from next on, with the entry before them
      and its commit index. */
  function Update(n: Node, p: NodeId): Message
    requires 1 <= Lookup(n.next, p) <= |n.log|
  {
    var k := Lookup(n.next, p);
    AppendEntries(n.config.id, p, n.term, k - 1, n.log[k - 1].term, n.log[k..], n.commit)
  }

  /** At the end of its period a leader sends one update to every other member and
      starts the next period. */
  lemma Heartbeat(ms: set<NodeId>, v: NodeId, n: Node)
    requires ConfigOk(ms, v, n.config) && n.role == Leader
    requires n.heartbeatElapsed + 1 >= n.config.heartbeatTimeout
    requires forall p | p in ms && p != v :: 1 <= Lookup(n.next, p) <= |n.log|
    ensures var n' := Spec.Tick(n);
            && n' == n.(heartbeatElapsed := 0, out := n'.out)
            && n.out <= n'.out && |n'.out| == |n.out| + |ms| - 1
            && forall p | p in ms && p != v :: Update(n, p) in n'.out[|n.out|..]
  {
    hide Spec.Others, Spec.AppendMsgs;
    var n1 := n.(heartbeatElapsed := 0);
    var others := Spec.Others(v, n.config.peers);
    MembersCard(ms, v, n.config);
    OthersCount(v, n.config.peers);
    MsgsCount(n1, others);
    var n' := Spec.Tick(n);
    assert n'.out == n.out + Spec.AppendMsgs(n1, others);
    assert n'.out[|n.out|..] == Spec.AppendMsgs(n1, others);
    forall p | p in ms && p != v ensures Update(n, p) in n'.out[|n.out|..] {
      OthersAre(v, n.config.peers, p);
      AppendMsgsAre(n1, others, p);
      assert Spec.AppendMsg(n1, p) == Update(n, p);
    }
  }

  lemma MsgsCount(n: Node, ps: seq<NodeId>)
    ensures |Spec.AppendMsgs(n, ps)| == |ps|
  {
  }
}
