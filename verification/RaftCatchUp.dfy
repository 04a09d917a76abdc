/** A stable leader brings a same-term follower up to date: every rejected probe
    steps back by one, and a probe at index 0 cannot be rejected. */
module RaftCatchUp {
  import opened RaftTypes
  import Spec = RaftSpec
  import opened RaftProtocol
  import opened RaftAppend
  import RaftGrowth
  import Cluster = RaftCluster
  import T = RaftTheorems
  import opened RaftRefine
  import opened RaftCalls
  import opened RaftReplication

  /** One exchange: the leader probes, the follower answers, the leader takes note. */
  function Round(l: Node, f: Node): (Node, Node) {
    var f1 := Spec.Step(f, Spec.AppendMsg(l, f.config.id));
    var l1 := if f1.out == [] then l else Spec.Step(l, f1.out[|f1.out| - 1]);
    (l1, f1.(out := []))
  }

  function Rounds(l: Node, f: Node, k: nat): (Node, Node)
    decreases k
  {
    if k == 0 then (l, f) else var (l1, f1) := Round(l, f); Rounds(l1, f1, k - 1)
  }

  /** A leader and a follower of the same term whose logs satisfy log matching. */
  ghost predicate Pair(l: Node, f: Node) {
    && l.role == Leader && f.role == Follower && l.term == f.term && l.config.id != f.config.id
    && f.config.id in l.next && 1 <= l.next[f.config.id] <= |l.log|
    && Matching(f.log, l.log) && Numbered(l.log)
    && f.log[0] == l.log[0] == SENTINEL && f.out == []
  }

  ghost predicate CaughtUp(l: Node, f: Node) { Agree(f.log, l.log, LastIndex(l.log)) }

  lemma PrefixMatching(a: Log, b: Log, k: nat)
    requires 0 < k <= |b| && a == b[..k]
    ensures Matching(a, b)
  {
    forall i: nat | i < |a| && i < |b| && a[i].term == b[i].term ensures Agree(a, b, i) {
      assert a[..i + 1] == b[..i + 1];
    }
  }

  /** A probe whose previous entry matches leaves the follower caught up. */
  lemma ProbeAccepted(l: Node, f: Node)
    requires Pair(l, f)
    requires var prev := l.next[f.config.id] - 1; prev < |f.log| && f.log[prev].term == l.log[prev].term
    ensures var r := Spec.Merge(f.log, f.stable, Spec.AppendMsg(l, f.config.id).entries).0;
            && Agree(r, l.log, LastIndex(l.log)) && Matching(r, l.log) && r[0] == SENTINEL
  {
    var prev := l.next[f.config.id] - 1;
    var es := l.log[prev + 1..];
    MergeLog(f.log, f.stable, LastIndex(f.log), es);
    MergeAdopts(f.log, l.log, prev, es);
    var (r, st) := Spec.Merge(f.log, LastIndex(f.log), es);
    MergedAgrees(f.log, l.log, LastIndex(l.log), r, st);
    AgreeDown(r, l.log, LastIndex(l.log), 0);
    if r != f.log {
      PrefixMatching(r, l.log, |l.log|);
    }
  }

  ghost predicate ProbeFits(l: Node, f: Node)
    requires Pair(l, f)
  {
    var prev := l.next[f.config.id] - 1;
    prev < |f.log| && f.log[prev].term == l.log[prev].term
  }

  lemma RoundAccepted(l: Node, f: Node)
    requires Pair(l, f) && ProbeFits(l, f)
    ensures var (l1, f1) := Round(l, f);
            && Pair(l1, f1) && l1.log == l.log && f1.config.id == f.config.id && CaughtUp(l1, f1)
            && (l.commit <= LastIndex(l.log) ==> f1.commit >= l.commit && f1.commit >= f.commit)
            && Noted(l, l1, f.config.id)
  {
    hide Spec.Merge, Spec.Step, Matching, Numbered, Agree, Spec.CommitPoint;
    ProbeAccepted(l, f);
    FollowerAccepts(l, f);
    LeaderNotes(l, f.config.id);
    if l.commit <= LastIndex(l.log) {
      FollowerCommits(l, f);
    }
  }

  /** The leader after it has noted that p holds its whole log. */
  ghost predicate Noted(l: Node, l1: Node, p: NodeId) {
    var n := l.(matched := l.matched[p := LastIndex(l.log)], next := l.next[p := LastIndex(l.log) + 1]);
    l1 == n.(commit := Spec.MaybeCommit(n).commit)
  }

  lemma FollowerCommits(l: Node, f: Node)
    requires Pair(l, f) && ProbeFits(l, f) && l.commit <= LastIndex(l.log)
    requires LastIndex(Spec.Step(f, Spec.AppendMsg(l, f.config.id)).log) >= LastIndex(l.log)
    ensures var f1 := Spec.Step(f, Spec.AppendMsg(l, f.config.id));
            f1.commit == if l.commit > f.commit then l.commit else f.commit
  {
    hide Spec.Merge, Matching, Numbered;
  }

  /** The follower takes over the suffix and acknowledges the leader's whole log. */
  lemma FollowerAccepts(l: Node, f: Node)
    requires Pair(l, f) && ProbeFits(l, f)
    ensures var m := Spec.AppendMsg(l, f.config.id);
            var f1 := Spec.Step(f, m);
            && f1.log == Spec.Merge(f.log, f.stable, m.entries).0
            && f1.out == [AppendEntriesResp(f.config.id, l.config.id, l.term, true, LastIndex(l.log))]
            && f1.role == Follower && f1.term == f.term && f1.config == f.config
  {
    hide Spec.Merge, Matching, Numbered;
  }

  lemma LeaderNotes(l: Node, p: NodeId)
    requires l.role == Leader
    ensures var l1 := Spec.Step(l, AppendEntriesResp(p, l.config.id, l.term, true, LastIndex(l.log)));
            && l1.role == Leader && l1.term == l.term && l1.config == l.config && l1.log == l.log
            && l1.next == l.next[p := LastIndex(l.log) + 1] && Noted(l, l1, p)
  {
    hide Spec.CommitPoint;
  }

  lemma RoundRejected(l: Node, f: Node)
    requires Pair(l, f) && !ProbeFits(l, f)
    ensures var (l1, f1) := Round(l, f);
            && Pair(l1, f1) && l1.log == l.log && f1.config.id == f.config.id
            && l1 == l.(next := l.next[f.config.id := l.next[f.config.id] - 1])
            && f1.log == f.log && f1.commit == f.commit
  {
    hide Spec.Merge, Spec.CommitPoint, Matching, Numbered, Agree;
  }

  lemma RoundStep(l: Node, f: Node)
    requires Pair(l, f)
    ensures var (l1, f1) := Round(l, f);
            && Pair(l1, f1) && l1.log == l.log && f1.config.id == f.config.id
            && (CaughtUp(l1, f1)
                || (l1.next[f.config.id] == l.next[f.config.id] - 1 && !CaughtUp(l, f)))
            && (CaughtUp(l1, f1) && l.commit <= LastIndex(l.log) ==> f1.commit >= l.commit)
  {
    hide Matching, Numbered, Agree, Round;
    if ProbeFits(l, f) {
      RoundAccepted(l, f);
    } else {
      RoundRejected(l, f);
      if CaughtUp(l, f) {
        AgreeDown(f.log, l.log, LastIndex(l.log), l.next[f.config.id] - 1);
        AgreeLong(f.log, l.log, LastIndex(l.log));
      }
    }
  }

  /** From next index n, n rounds suffice, and further rounds change nothing. */
  lemma {:induction false} CatchUp(l: Node, f: Node, k: nat)
    requires Pair(l, f) && (CaughtUp(l, f) || l.next[f.config.id] <= k)
    ensures var (l', f') := Rounds(l, f, k); l'.log == l.log && Agree(f'.log, l.log, LastIndex(l.log))
    decreases k
  {
    hide Pair, Round, Agree;
    if k > 0 {
      var (l1, f1) := Round(l, f);
      RoundStep(l, f);
      LaterNext(l1, f1);
      CatchUp(l1, f1, k - 1);
    } else {
      LaterNext(l, f);
    }
  }

  lemma LaterNext(l: Node, f: Node)
    requires Pair(l, f)
    ensures f.config.id in l.next && l.next[f.config.id] >= 1
  {
  }

  // ------------------------------------------------------------ commits

  lemma {:induction false} HoldersSame(n: Node, c: nat, ps: seq<NodeId>, i: nat)
    ensures Spec.Holders(n.(commit := c), ps, i) == Spec.Holders(n, ps, i)
    decreases |ps|
  {
    if ps != [] {
      HoldersSame(n, c, ps[..|ps| - 1], i);
    }
  }

  /** Trying to commit a second time changes nothing. */
  lemma CommitTwice(n: Node)
    ensures var c := Spec.MaybeCommit(n).commit;
            Spec.MaybeCommit(n.(commit := c)).commit == c
  {
    hide Spec.Holders;
    var c := Spec.MaybeCommit(n).commit;
    var c' := Spec.MaybeCommit(n.(commit := c)).commit;
    HoldersSame(n, c, n.config.peers, c');
    assert c' > c ==> Spec.Committable(n.(commit := c), c') == Spec.Committable(n, c');
  }

  /** The follower holds the leader's log and knows of commits up to c; the leader
      knows that it does, and has committed what it can. */
  ghost predicate Served(l: Node, f: Node, c: nat) {
    && CaughtUp(l, f) && f.commit >= c
    && Lookup(l.matched, f.config.id) == LastIndex(l.log)
    && Spec.MaybeCommit(l).commit == l.commit
  }

  /** A leader that has dealt with p only. */
  ghost predicate DealtWith(l: Node, l': Node, p: NodeId) {
    && l'.role == l.role && l'.term == l.term && l'.config == l.config && l'.log == l.log && l'.out == l.out
    && l.commit <= l'.commit <= LastIndex(l.log)
    && l'.next == l.next[p := Lookup(l'.next, p)]
    && (forall q | q != p :: Lookup(l'.matched, q) == Lookup(l.matched, q))
  }

  lemma NotedServes(l: Node, l1: Node, f1: Node, c: nat)
    requires Noted(l, l1, f1.config.id) && l.commit <= LastIndex(l.log) && c <= l.commit <= f1.commit
    requires CaughtUp(l1, f1) && f1.config.id in l.next
    ensures Served(l1, f1, c) && DealtWith(l, l1, f1.config.id)
  {
    hide Agree, Spec.Committable;
    var p := f1.config.id;
    var n := l.(matched := l.matched[p := LastIndex(l.log)], next := l.next[p := LastIndex(l.log) + 1]);
    CommitTwice(n);
  }

  lemma DealtTwice(a: Node, b: Node, c: Node, p: NodeId)
    requires DealtWith(a, b, p) && DealtWith(b, c, p) && p in a.next
    ensures DealtWith(a, c, p)
  {
  }

  lemma RoundServes(l: Node, f: Node, c: nat)
    requires Pair(l, f) && c <= l.commit <= LastIndex(l.log)
    ensures var (l1, f1) := Round(l, f);
            && Pair(l1, f1) && f1.config.id == f.config.id && DealtWith(l, l1, f.config.id)
            && (Served(l1, f1, c) || (!CaughtUp(l, f) && l1.next[f.config.id] == l.next[f.config.id] - 1))
  {
    hide Matching, Numbered, Agree, Round, Noted, Served, Spec.CommitPoint;
    RoundStep(l, f);
    if ProbeFits(l, f) {
      RoundAccepted(l, f);
      var (l1, f1) := Round(l, f);
      NotedServes(l, l1, f1, c);
    } else {
      RoundRejected(l, f);
      if CaughtUp(l, f) {
        CaughtUpFits(l, f);
      }
    }
  }

  lemma CaughtUpFits(l: Node, f: Node)
    requires Pair(l, f) && CaughtUp(l, f)
    ensures ProbeFits(l, f)
  {
    AgreeDown(f.log, l.log, LastIndex(l.log), l.next[f.config.id] - 1);
    AgreeLong(f.log, l.log, LastIndex(l.log));
  }

  lemma ServedCaughtUp(l: Node, f: Node, c: nat)
    requires Served(l, f, c)
    ensures CaughtUp(l, f)
  {
  }

  /** From next index n, n rounds leave the follower served: it holds the leader's log
      and knows of the commits the leader knew of at the start, and the leader knows
      that it holds the log. Further rounds keep it so. */
  lemma {:induction false} RoundsServe(l: Node, f: Node, k: nat, c: nat)
    requires Pair(l, f) && c <= l.commit <= LastIndex(l.log)
    requires l.next[f.config.id] <= k || Served(l, f, c)
    ensures var (l', f') := Rounds(l, f, k);
            && Pair(l', f') && f'.config.id == f.config.id && DealtWith(l, l', f.config.id) && Served(l', f', c)
    decreases k
  {
    hide Pair, Round, Served, CaughtUp, DealtWith;
    LaterNext(l, f);
    if k > 0 {
      var (l1, f1) := Round(l, f);
      RoundServes(l, f, c);
      if Served(l, f, c) {
        ServedCaughtUp(l, f, c);
      }
      LaterNext(l1, f1);
      DealtBounds(l, l1, f.config.id);
      RoundsServe(l1, f1, k - 1, c);
      DealtTwice(l, l1, Rounds(l1, f1, k - 1).0, f.config.id);
    } else {
      DealtSame(l, f.config.id);
    }
  }

  lemma DealtBounds(l: Node, l1: Node, p: NodeId)
    requires DealtWith(l, l1, p)
    ensures l.commit <= l1.commit <= LastIndex(l1.log)
  {
  }

  lemma DealtSame(l: Node, p: NodeId)
    requires p in l.next && l.commit <= LastIndex(l.log)
    ensures DealtWith(l, l, p)
  {
  }

  /** The leader after k exchanges with each of fs in turn. */
  function Serve(l: Node, fs: seq<Node>, k: nat): Node {
    if fs == [] then l else Rounds(Serve(l, fs[..|fs| - 1], k), fs[|fs| - 1], k).0
  }

  ghost predicate Among(fs: seq<Node>, p: NodeId) { exists i | 0 <= i < |fs| :: fs[i].config.id == p }

  ghost predicate Followers(l: Node, fs: seq<Node>) {
    && (forall i | 0 <= i < |fs| :: Pair(l, fs[i]))
    && (forall i, j | 0 <= i < j < |fs| :: fs[i].config.id != fs[j].config.id)
  }

  lemma {:induction false} ServeAll(l: Node, fs: seq<Node>, k: nat)
    requires Followers(l, fs) && l.commit <= LastIndex(l.log) < k
    ensures var l' := Serve(l, fs, k);
            && l'.role == l.role && l'.term == l.term && l'.config == l.config && l'.log == l.log
            && l.commit <= l'.commit <= LastIndex(l.log)
            && (forall i | 0 <= i < |fs| :: Lookup(l'.matched, fs[i].config.id) == LastIndex(l.log))
            && (forall p | p in l.next && !Among(fs, p) :: p in l'.next && l'.next[p] == l.next[p])
            && (fs != [] ==> Spec.MaybeCommit(l').commit == l'.commit)
    decreases |fs|
  {
    hide Matching, Numbered, Agree, Rounds, Spec.MaybeCommit;
    if fs != [] {
      var n := |fs| - 1;
      var f := fs[n];
      ServeAll(l, fs[..n], k);
      var l1 := Serve(l, fs[..n], k);
      assert Pair(l, f) && forall i | 0 <= i < n :: fs[..n][i].config.id != f.config.id;
      assert Pair(l1, f);
      RoundsServe(l1, f, k, 0);
    }
  }

  function Ids(fs: seq<Node>): (ps: seq<NodeId>)
    ensures |ps| == |fs|
  {
    seq(|fs|, i requires 0 <= i < |fs| => fs[i].config.id)
  }

  /** A stable leader commits its whole log, if the last entry is of its term, once it
      has had enough exchanges with followers that make a majority with it. */
  lemma MajorityCommits(ms: set<NodeId>, v: NodeId, l: Node, fs: seq<Node>, k: nat)
    requires ConfigOk(ms, v, l.config) && Followers(l, fs) && (forall p | p in Ids(fs) :: p in ms)
    requires fs != [] && 2 * (1 + |fs|) > |ms|
    requires l.commit <= LastIndex(l.log) < k && LastTerm(l.log) == l.term
    ensures Serve(l, fs, k).commit == LastIndex(l.log)
  {
    hide Pair, Serve, Spec.MaybeCommit, Distinct, Ids;
    var l' := Serve(l, fs, k);
    ServeAll(l, fs, k);
    var q := {v} + ToSet(Ids(fs));
    WithLeader(l, fs);
    assert Quorum(ms, q);
    forall p | p in q && p != v ensures Lookup(l'.matched, p) >= LastIndex(l.log) {
      var i := IdOf(fs, p);
      assert Lookup(l'.matched, fs[i].config.id) == LastIndex(l.log);
    }
    QuorumCommits(ms, v, l', q, LastIndex(l.log));
  }

  lemma IdOf(fs: seq<Node>, p: NodeId) returns (i: nat)
    requires p in Ids(fs)
    ensures i < |fs| && fs[i].config.id == p
  {
    i :| 0 <= i < |fs| && Ids(fs)[i] == p;
  }

  /** Leader and followers are all different. */
  lemma WithLeader(l: Node, fs: seq<Node>)
    requires Followers(l, fs)
    ensures Distinct(Ids(fs)) && |{l.config.id} + ToSet(Ids(fs))| == 1 + |fs|
  {
    hide Matching, Numbered;
    forall i | 0 <= i < |fs| ensures Ids(fs)[i] != l.config.id {
      assert Pair(l, fs[i]);
    }
    DistinctCard(Ids(fs));
    assert l.config.id !in ToSet(Ids(fs));
  }

  // ------------------------------------------------------------ in every run

  lemma LogsMatch(ms: set<NodeId>, s: Cluster.Cluster, u: NodeId, p: NodeId)
    requires Cluster.ClusterOk(ms, s) && u in ms && p in ms
    ensures Matching(s.servers[p].live.log, s.servers[u].live.log) && Numbered(s.servers[u].live.log)
  {
    hide Cluster.ServerOk, Matching, Numbered, Good, AcksOk, VotesOk, CommitsOk;
    var view := Cluster.ViewOf(s);
    RaftGrowth.NodeLogGood(ms, view, u);
    RaftGrowth.NodeLogGood(ms, view, p);
    GoodMatching(s.h.leaderLog, s.servers[p].live.log, s.servers[u].live.log);
  }

  /** A leader and a follower of its term, in any reachable state, satisfy what
      catching up starts from. */
  lemma ReachablePair(ms: set<NodeId>, s: Cluster.Cluster, u: NodeId, p: NodeId)
    requires Cluster.ClusterOk(ms, s) && u in ms && p in ms && u != p
    requires s.servers[u].live.role == Leader && s.servers[p].live.role == Follower
    requires s.servers[u].live.term == s.servers[p].live.term
    ensures Pair(s.servers[u].live, s.servers[p].live)
  {
    hide Inv, Matching, Numbered, Distinct;
    LogsMatch(ms, s, u, p);
    T.PeerFacts(ms, s, u, p);
    T.IndexedLog(ms, s, u);
    T.IndexedLog(ms, s, p);
    assert Cluster.ServerOk(ms, u, s.servers[u]) && Cluster.ServerOk(ms, p, s.servers[p]);
  }

  /** Catch-up from any state of any run: after as many undisturbed exchanges as the
      leader's next index for the follower, or more, their logs agree. */
  lemma RunCatchUp(
      ms: set<NodeId>, run: seq<Cluster.Cluster>, evs: seq<Cluster.Event>, j: nat, u: NodeId, p: NodeId, k: nat)
    requires T.IsRun(ms, run, evs) && j < |run| && u in ms && p in ms && u != p
    requires u in run[j].servers && p in run[j].servers
    requires run[j].servers[u].live.role == Leader && run[j].servers[p].live.role == Follower
    requires run[j].servers[u].live.term == run[j].servers[p].live.term
    requires Lookup(run[j].servers[u].live.next, p) <= k
    ensures var (l, f) := Rounds(run[j].servers[u].live, run[j].servers[p].live, k);
            && l.log == run[j].servers[u].live.log
            && Agree(f.log, l.log, LastIndex(l.log))
            && f.commit >= run[j].servers[u].live.commit
            && Lookup(l.matched, p) == LastIndex(l.log)
  {
    hide T.IsRun, Inv, Matching, Numbered, Agree, Distinct, Rounds;
    T.RunOk(ms, run, evs, j);
    ReachablePair(ms, run[j], u, p);
    assert Cluster.ServerOk(ms, p, run[j].servers[p]);
    CommitInLog(ms, run, evs, j, u);
    RoundsServe(run[j].servers[u].live, run[j].servers[p].live, k, run[j].servers[u].live.commit);
  }

  lemma CommitInLog(ms: set<NodeId>, run: seq<Cluster.Cluster>, evs: seq<Cluster.Event>, j: nat, u: NodeId)
    requires T.IsRun(ms, run, evs) && j < |run| && u in ms
    ensures u in run[j].servers && run[j].servers[u].live.commit <= LastIndex(run[j].servers[u].live.log)
  {
    hide T.IsRun;
    T.CommittedForever(ms, run, evs, j, j, u);
  }

  /** The states of the given servers. */
  ghost function States(s: Cluster.Cluster, ps: seq<NodeId>): (fs: seq<Node>)
    requires forall i | 0 <= i < |ps| :: ps[i] in s.servers
    ensures |fs| == |ps| && forall i | 0 <= i < |ps| :: fs[i] == s.servers[ps[i]].live
  {
    seq(|ps|, i requires 0 <= i < |ps| => s.servers[ps[i]].live)
  }

  /** From any state of any run: a leader whose last entry is of its term commits its
      whole log once it has exchanged enough messages, undisturbed, with followers of
      its term that make a majority with it. */
  lemma RunMajorityCommits(
      ms: set<NodeId>, run: seq<Cluster.Cluster>, evs: seq<Cluster.Event>, j: nat, u: NodeId, ps: seq<NodeId>, k: nat)
    requires T.IsRun(ms, run, evs) && j < |run| && u in ms && u in run[j].servers
    requires Distinct(ps) && ps != [] && 2 * (1 + |ps|) > |ms|
    requires forall i | 0 <= i < |ps| :: ps[i] in ms && ps[i] != u && ps[i] in run[j].servers
    requires var l := run[j].servers[u].live;
             && l.role == Leader && LastTerm(l.log) == l.term && LastIndex(l.log) < k
             && forall i | 0 <= i < |ps| ::
                  run[j].servers[ps[i]].live.role == Follower && run[j].servers[ps[i]].live.term == l.term
    ensures var l := run[j].servers[u].live;
            Serve(l, States(run[j], ps), k).commit == LastIndex(l.log)
  {
    hide T.IsRun, Inv, Serve, Pair;
    T.RunOk(ms, run, evs, j);
    var l, fs := run[j].servers[u].live, States(run[j], ps);
    CommitInLog(ms, run, evs, j, u);
    assert Cluster.ServerOk(ms, u, run[j].servers[u]);
    forall i | 0 <= i < |fs| ensures Pair(l, fs[i]) && fs[i].config.id == ps[i] {
      ReachablePair(ms, run[j], u, ps[i]);
      assert Cluster.ServerOk(ms, ps[i], run[j].servers[ps[i]]);
    }
    assert Ids(fs) == ps;
    MajorityCommits(ms, u, l, fs, k);
  }
}
