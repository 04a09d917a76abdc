/** What replication achieves: what an AppendEntries does to a log and to the reply,
    when a leader commits, and when a follower learns of it. */
module RaftReplication {
  import opened RaftTypes
  import Spec = RaftSpec
  import opened RaftProtocol
  import opened RaftRefine
  import opened RaftCalls
  import opened RaftCluster
  import opened RaftTheorems
  import opened Durability

  // ------------------------------------------------------------- the log

  /** Entries numbered on from prev. */
  ghost predicate NumberedFrom(es: seq<Entry>, prev: nat) {
    forall i | 0 <= i < |es| :: es[i].index == prev + 1 + i
  }

  /** The first x entries are in the log already, going by their terms. */
  ghost predicate Present(l: Log, prev: nat, es: seq<Entry>, x: nat) {
    x <= |es| && prev + x < |l| && forall i | 0 <= i < x :: l[prev + 1 + i].term == es[i].term
  }

  /** What appending does, exactly: if all entries are present the log stays as it
      is, suffix included; otherwise the log is cut where the first one is missing or
      conflicts, and continues with the entries from there. */
  lemma {:induction false} MergeExact(l: Log, stable: nat, prev: nat, es: seq<Entry>, x: nat)
    requires NumberedFrom(es, prev) && Present(l, prev, es, x)
    requires x < |es| ==> !Present(l, prev, es, x + 1)
    ensures Spec.Merge(l, stable, es)
            == if x == |es| then (l, stable)
               else (l[..prev + 1 + x] + es[x..], if stable > prev + x && prev + 1 + x < |l| then prev + x else stable)
    decreases |es|
  {
    hide Spec.MergeOne;
    if es != [] {
      var k := |es| - 1;
      var init := es[..k];
      if x == |es| {
        MergeExact(l, stable, prev, init, k);
        KeepOne(l, stable, es[k]);
      } else {
        MergeExact(l, stable, prev, init, x);
        if x == k {
          CutOne(l, stable, es[k]);
          assert es[k..] == [es[k]];
        } else {
          var (l1, st1) := Spec.Merge(l, stable, init);
          GrowOne(l1, st1, es[k]);
          assert l[..prev + 1 + x] + es[x..] == (l[..prev + 1 + x] + init[x..]) + [es[k]];
        }
      }
    }
  }

  lemma KeepOne(l: Log, stable: nat, e: Entry)
    requires 0 < e.index < |l| && l[e.index].term == e.term
    ensures Spec.MergeOne(l, stable, e) == (l, stable)
  {
  }

  lemma CutOne(l: Log, stable: nat, e: Entry)
    requires 0 < e.index <= |l| && (e.index < |l| ==> l[e.index].term != e.term)
    ensures Spec.MergeOne(l, stable, e)
            == (l[..e.index] + [e], if stable >= e.index && e.index < |l| then e.index - 1 else stable)
  {
    assert e.index == |l| ==> l[..e.index] == l;
  }

  lemma GrowOne(l: Log, stable: nat, e: Entry)
    requires e.index == |l|
    ensures Spec.MergeOne(l, stable, e) == (l + [e], stable)
  {
  }

  // ----------------------------------------------------------- the reply

  /** The previous entry of the message is in the log. */
  ghost predicate Consistent(l: Log, m: Message)
    requires m.AppendEntries?
  {
    m.prevLogIndex < |l| && l[m.prevLogIndex].term == m.prevLogTerm
  }

  function Answer(n: Node, m: Message): Message
    requires m.AppendEntries?
  {
    if m.prevLogIndex < |n.log| && n.log[m.prevLogIndex].term == m.prevLogTerm
    then AppendEntriesResp(n.config.id, m.from, m.term, true, m.prevLogIndex + |m.entries|)
    else AppendEntriesResp(n.config.id, m.from, m.term, false, 0)
  }

  /** Every AppendEntries of the current or a later term makes the node follow its
      sender and is answered: with success and the index it reaches to if its previous
      entry is there, else with a refusal that changes nothing in the log. A leader
      ignores one of its own term. */
  lemma AppendAnswer(n: Node, m: Message)
    requires m.AppendEntries? && m.term >= n.term
    ensures var n' := Spec.Step(n, m);
            if n.role == Leader && m.term == n.term then n' == n
            else
              && n'.role == Follower && n'.term == m.term && n'.leader == m.from && n'.electionElapsed == 0
              && n'.vote == (if m.term > n.term then 0 else n.vote)
              && n'.out == n.out + [Answer(n, m)]
              && (Consistent(n.log, m) ==> (n'.log, n'.stable) == Spec.Merge(n.log, n.stable, m.entries))
              && (!Consistent(n.log, m) ==> n'.log == n.log && n'.stable == n.stable && n'.commit == n.commit)
  {
    hide Spec.Merge;
  }

  /** How a follower that accepts learns of commits. */
  lemma AppendCommits(n: Node, m: Message)
    requires m.AppendEntries? && m.term >= n.term && !(n.role == Leader && m.term == n.term)
    requires Consistent(n.log, m)
    ensures var n' := Spec.Step(n, m);
            m.leaderCommit <= LastIndex(n'.log)
            ==> n'.commit == if m.leaderCommit > n.commit then m.leaderCommit else n.commit
  {
    hide Spec.Merge;
  }

  /** In every run, a node that accepts an AppendEntries ends up with the greater of
      its own commit index and the leader's, and with the message in its log. */
  lemma FollowerLearns(ms: set<NodeId>, run: seq<Cluster>, evs: seq<Event>, j: nat, u: NodeId, m: Message)
    requires IsRun(ms, run, evs) && j < |evs| && u in ms && evs[j] == Act(u, Deliver(m)) && m.AppendEntries?
    requires u in run[j].servers && u in run[j + 1].servers
    requires var n := run[j].servers[u].live;
             m.term >= n.term && !(n.role == Leader && m.term == n.term) && Consistent(n.log, m)
    ensures var n, n' := run[j].servers[u].live, run[j + 1].servers[u].live;
            && n'.commit == (if m.leaderCommit > n.commit then m.leaderCommit else n.commit)
            && Verified(n'.log, m)
  {
    hide Inv, Init, Record, Batch, Boot, ToSet, Spec.Step, Verified, Spec.Merge, Distinct;
    RunOk(ms, run, evs, j);
    assert Next(run[j], evs[j], run[j + 1]);
    var n := run[j].servers[u].live;
    assert ServerOk(ms, u, run[j].servers[u]);
    ViewLive(ms, run[j], u);
    ConsistentReaches(n, m);
    LeaderCommitBound(ms, run, evs, j, m);
    MergeHolds(ms, ViewOf(run[j]), u, n, m);
    AppendAnswer(n, m);
    VerifiedLong(Spec.Step(n, m).log, m);
    AppendCommits(n, m);
  }

  lemma VerifiedLong(l: Log, m: Message)
    requires Verified(l, m)
    ensures m.AppendEntries? && m.prevLogIndex + |m.entries| <= LastIndex(l)
  {
  }

  lemma ConsistentReaches(n: Node, m: Message)
    requires m.AppendEntries? && m.term >= n.term && !(n.role == Leader && m.term == n.term)
    ensures Reaches(n, m) <==> Consistent(n.log, m)
  {
  }

  // ------------------------------------------------------------ committing

  /** As far as leader v knows, every member of q holds index i. */
  ghost predicate HeldBy(n: Node, v: NodeId, q: set<NodeId>, i: nat) {
    forall p | p in q && p != v :: Lookup(n.matched, p) >= i
  }

  lemma QuorumIsEnough(ms: set<NodeId>, v: NodeId, n: Node, q: set<NodeId>, i: nat)
    requires ConfigOk(ms, v, n.config) && Quorum(ms, q) && v in q && HeldBy(n, v, q, i)
    ensures 1 + Spec.Holders(n, n.config.peers, i) >= QuorumSize(n.config)
  {
    var h := HolderSet(ms, v, Abs(n), i);
    HolderSetCard(ms, v, n, i);
    MembersCard(ms, v, n.config);
    SubsetCard(q, h);
  }

  /** A majority is enough: an index of the leader's term that more than half of the
      members hold, counting the leader, is committed. */
  lemma QuorumCommits(ms: set<NodeId>, v: NodeId, n: Node, q: set<NodeId>, i: nat)
    requires ConfigOk(ms, v, n.config) && Quorum(ms, q) && v in q && HeldBy(n, v, q, i)
    requires i < |n.log| && n.log[i].term == n.term
    ensures Spec.MaybeCommit(n).commit >= i
  {
    hide Spec.Holders, Quorum, HeldBy;
    QuorumIsEnough(ms, v, n, q, i);
    assert Spec.Committable(n, i);
  }

  /** And a majority is needed: the commit index moves only to an index of the
      leader's term that such a majority holds. */
  lemma CommitsByQuorum(ms: set<NodeId>, v: NodeId, n: Node) returns (q: set<NodeId>)
    requires ConfigOk(ms, v, n.config)
    ensures var c := Spec.MaybeCommit(n).commit;
            && n.commit <= c
            && (c > n.commit ==> c < |n.log| && n.log[c].term == n.term
                                 && Quorum(ms, q) && v in q && HeldBy(n, v, q, c))
  {
    hide Spec.Holders;
    var c := Spec.MaybeCommit(n).commit;
    q := HolderSet(ms, v, Abs(n), c);
    HolderSetCard(ms, v, n, c);
    if c > n.commit {
      EnoughIsQuorum(ms, v, n.config, q);
    }
  }

  /** The acknowledgement that completes a majority commits the index. */
  lemma AckCommits(ms: set<NodeId>, v: NodeId, n: Node, p: NodeId, k: nat, q: set<NodeId>, i: nat)
    requires ConfigOk(ms, v, n.config) && n.role == Leader
    requires Quorum(ms, q) && v in q && i < |n.log| && n.log[i].term == n.term
    requires forall w | w in q && w != v :: (if w == p then k else Lookup(n.matched, w)) >= i
    ensures Spec.Step(n, AppendEntriesResp(p, v, n.term, true, k)).commit >= i
  {
    hide Spec.CommitPoint, Quorum;
    var n1 := n.(matched := n.matched[p := k], next := n.next[p := k + 1]);
    assert HeldBy(n1, v, q, i);
    hide HeldBy;
    QuorumCommits(ms, v, n1, q, i);
  }

  /** In every run, delivering the acknowledgement that completes a majority for an
      index of the leader's term commits that index. */
  lemma RunCommits(
      ms: set<NodeId>, run: seq<Cluster>, evs: seq<Event>, j: nat, u: NodeId, m: Message, q: set<NodeId>, i: nat)
    requires IsRun(ms, run, evs) && j < |evs| && u in ms && evs[j] == Act(u, Deliver(m))
    requires u in run[j].servers && u in run[j + 1].servers
    requires var n := run[j].servers[u].live;
             && n.role == Leader && m.AppendEntriesResp? && m.to == u && m.term == n.term && m.success
             && i < |n.log| && n.log[i].term == n.term
             && Quorum(ms, q) && u in q
             && forall w | w in q && w != u :: (if w == m.from then m.matchIndex else Lookup(n.matched, w)) >= i
    ensures run[j + 1].servers[u].live.commit >= i
  {
    hide Inv, Init, Record, Batch, Boot, Spec.Step, Quorum, Spec.Merge, Distinct;
    RunOk(ms, run, evs, j);
    assert Next(run[j], evs[j], run[j + 1]);
    var n := run[j].servers[u].live;
    assert ServerOk(ms, u, run[j].servers[u]);
    AckCommits(ms, u, n, m.from, m.matchIndex, q, i);
  }

  /** What a leader takes note of: the acknowledged index as it is told, with the next
      index behind it; a refusal steps next back by one, but not below 1. */
  lemma NotesReply(n: Node, p: NodeId, success: bool, k: nat)
    requires n.role == Leader
    ensures var n' := Spec.Step(n, AppendEntriesResp(p, n.config.id, n.term, success, k));
            && n' == n.(next := n'.next, matched := n'.matched, commit := n'.commit)
            && (success ==> n'.matched == n.matched[p := k] && n'.next == n.next[p := k + 1])
            && (!success ==>
                  && n'.matched == n.matched && n'.commit == n.commit
                  && n'.next == n.next[p := if Lookup(n.next, p) > 1 then Lookup(n.next, p) - 1 else Lookup(n.next, p)])
  {
    hide Spec.CommitPoint;
  }

  /** A leader's proposal is the last entry of its log, in its term; nobody else's
      changes anything. */
  lemma ProposeAppends(n: Node, data: Bytes)
    ensures var n' := Spec.Propose(n, data);
            if n.role == Leader then
              n'.log == n.log + [Entry(n.term, |n.log|, data)] && n' == n.(log := n'.log, commit := n'.commit)
            else n' == n
  {
    hide Spec.CommitPoint;
  }
}
