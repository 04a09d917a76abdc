/** What each operation of the Raft core computes, as functions on the whole
    node state. The class in RaftCore is proved against these. */
module RaftSpec {
  import opened RaftTypes

  function Fresh(c: Config): Node {
    Node(c, Follower, 0, 0, [SENTINEL], 0, 0, 0, 0, 0, 0, [], map[], map[], false, [])
  }

  function Send(n: Node, m: Message): Node {
    n.(out := n.out + [m])
  }

  /** The membership without the node itself, in order. */
  function Others(id: NodeId, ps: seq<NodeId>): seq<NodeId> {
    if ps == [] then []
    else Others(id, ps[..|ps| - 1]) + (if ps[|ps| - 1] == id then [] else [ps[|ps| - 1]])
  }

  // ---------------------------------------------------------- role changes

  function BecomeFollower(n: Node, t: Term, leader: NodeId): Node {
    var n1 := if t > n.term then n.(term := t, vote := 0, dirty := true) else n;
    n1.(role := Follower, leader := leader, electionElapsed := 0)
  }

  function VoteRequest(n: Node, peer: NodeId): Message {
    RequestVote(n.config.id, peer, n.term, LastIndex(n.log), LastTerm(n.log))
  }

  function VoteRequests(n: Node, ps: seq<NodeId>): seq<Message> {
    seq(|ps|, i requires 0 <= i < |ps| => VoteRequest(n, ps[i]))
  }

  function Campaigning(n: Node): Node {
    n.(term := n.term + 1, vote := n.config.id, dirty := true, role := Candidate, leader := 0,
       electionElapsed := 0, votes := [n.config.id])
  }

  function BecomeCandidate(n: Node): Node {
    var n1 := Campaigning(n);
    if |n1.votes| >= QuorumSize(n1.config) then BecomeLeader(n1)
    else n1.(out := n1.out + VoteRequests(n1, Others(n1.config.id, n1.config.peers)))
  }

  /** The same counter for every peer but the node itself. */
  function PeerMap(id: NodeId, ps: seq<NodeId>, x: nat): (m: map<NodeId, nat>)
    ensures forall p | p in ps && p != id :: p in m && m[p] == x
  {
    if ps == [] then map[]
    else
      var m := PeerMap(id, ps[..|ps| - 1], x);
      assert forall p | p in ps :: p in ps[..|ps| - 1] || p == ps[|ps| - 1];
      if ps[|ps| - 1] == id then m else m[ps[|ps| - 1] := x]
  }

  function Leading(n: Node): Node {
    n.(role := Leader, leader := n.config.id, heartbeatElapsed := 0,
       next := PeerMap(n.config.id, n.config.peers, LastIndex(n.log) + 1),
       matched := PeerMap(n.config.id, n.config.peers, 0))
  }

  function BecomeLeader(n: Node): Node {
    Broadcast(Leading(n))
  }

  // ------------------------------------------------------------ replication

  /** log_[i] for i from next to the last index. */
  function Suffix(log: Log, next: nat): seq<Entry> {
    if next <= |log| then log[next..] else []
  }

  function AppendMsg(n: Node, peer: NodeId): Message {
    var next := Lookup(n.next, peer);
    var prev := WrapDec(next);
    AppendEntries(n.config.id, peer, n.term, prev, TermAt(n.log, prev), Suffix(n.log, next), n.commit)
  }

  function AppendMsgs(n: Node, ps: seq<NodeId>): seq<Message> {
    seq(|ps|, i requires 0 <= i < |ps| => AppendMsg(n, ps[i]))
  }

  function Broadcast(n: Node): Node {
    n.(out := n.out + AppendMsgs(n, Others(n.config.id, n.config.peers)))
  }

  /** One step of the append loop on (log, stable index). */
  function MergeOne(l: Log, stable: nat, e: Entry): (Log, nat) {
    if e.index <= LastIndex(l) then
      if TermAt(l, e.index) == e.term then (l, stable)
      else (l[..e.index] + [e], if stable >= e.index then WrapDec(e.index) else stable)
    else (l + [e], stable)
  }

  function Merge(l: Log, stable: nat, es: seq<Entry>): (Log, nat) {
    if es == [] then (l, stable)
    else
      var (l1, s1) := Merge(l, stable, es[..|es| - 1]);
      MergeOne(l1, s1, es[|es| - 1])
  }

  function Min(a: nat, b: nat): nat { if a <= b then a else b }

  function HandleAppendEntries(n: Node, m: Message): Node
    requires m.AppendEntries?
  {
    var n1 := n.(leader := m.from, electionElapsed := 0);
    if m.prevLogIndex > LastIndex(n1.log) || TermAt(n1.log, m.prevLogIndex) != m.prevLogTerm then
      Send(n1, AppendEntriesResp(n1.config.id, m.from, n1.term, false, 0))
    else Accept(n1, m)
  }

  /** Takes over the entries and the leader's commit index, then acknowledges. */
  function Accept(n: Node, m: Message): Node
    requires m.AppendEntries?
  {
    var (l, st) := Merge(n.log, n.stable, m.entries);
    var n1 := n.(log := l, stable := st,
                 commit := if m.leaderCommit > n.commit then Min(m.leaderCommit, LastIndex(l)) else n.commit);
    Send(n1, AppendEntriesResp(n1.config.id, m.from, n1.term, true, m.prevLogIndex + |m.entries|))
  }

  /** How many peers in ps acknowledged index i. */
  function Holders(n: Node, ps: seq<NodeId>, i: nat): nat {
    if ps == [] then 0
    else Holders(n, ps[..|ps| - 1], i)
         + (if ps[|ps| - 1] != n.config.id && Lookup(n.matched, ps[|ps| - 1]) >= i then 1 else 0)
  }

  predicate Committable(n: Node, i: nat) {
    TermAt(n.log, i) == n.term && 1 + Holders(n, n.config.peers, i) >= QuorumSize(n.config)
  }

  /** The highest committable index in (commit, top], or commit. */
  function CommitPoint(n: Node, top: nat): (c: nat)
    ensures c == n.commit || (n.commit < c <= top && Committable(n, c))
    ensures forall i | n.commit < i <= top && c < i :: !Committable(n, i)
  {
    if top <= n.commit then n.commit
    else if Committable(n, top) then top
    else CommitPoint(n, top - 1)
  }

  function MaybeCommit(n: Node): Node {
    n.(commit := CommitPoint(n, LastIndex(n.log)))
  }

  function HandleAppendEntriesResp(n: Node, m: Message): Node
    requires m.AppendEntriesResp?
  {
    if m.success then
      MaybeCommit(n.(matched := n.matched[m.from := m.matchIndex], next := n.next[m.from := m.matchIndex + 1]))
    else
      var k := Lookup(n.next, m.from);
      n.(next := n.next[m.from := if k > 1 then k - 1 else k])
  }

  // ----------------------------------------------------------------- voting

  predicate Grants(n: Node, m: Message)
    requires m.RequestVote?
  {
    && (n.vote == 0 || n.vote == m.from)
    && (m.lastLogTerm > LastTerm(n.log) || (m.lastLogTerm == LastTerm(n.log) && m.lastLogIndex >= LastIndex(n.log)))
  }

  function HandleRequestVote(n: Node, m: Message): Node
    requires m.RequestVote?
  {
    var n1 := if Grants(n, m) then n.(vote := m.from, dirty := true, electionElapsed := 0) else n;
    Send(n1, RequestVoteResp(n.config.id, m.from, n.term, Grants(n, m)))
  }

  function RecordVote(votes: seq<NodeId>, from: NodeId): seq<NodeId> {
    if from in votes then votes else votes + [from]
  }

  // ------------------------------------------------------------ entry points

  function StepFollower(n: Node, m: Message): Node {
    if m.RequestVote? then HandleRequestVote(n, m)
    else if m.AppendEntries? then HandleAppendEntries(n, m)
    else n
  }

  function StepCandidate(n: Node, m: Message): Node {
    match m
    case RequestVoteResp(from, _, _, granted) =>
      if granted then
        var n1 := n.(votes := RecordVote(n.votes, from));
        if |n1.votes| >= QuorumSize(n1.config) then BecomeLeader(n1) else n1
      else n
    case AppendEntries(_, _, _, _, _, _, _) => HandleAppendEntries(BecomeFollower(n, m.term, m.from), m)
    case RequestVote(_, _, _, _, _) => HandleRequestVote(n, m)
    case AppendEntriesResp(_, _, _, _, _) => n
  }

  function StepLeader(n: Node, m: Message): Node {
    if m.RequestVote? then HandleRequestVote(n, m)
    else if m.AppendEntriesResp? then HandleAppendEntriesResp(n, m)
    else n
  }

  function StepSameTerm(n: Node, m: Message): Node {
    match n.role
    case Follower => StepFollower(n, m)
    case Candidate => StepCandidate(n, m)
    case Leader => StepLeader(n, m)
  }

  function RejectStale(n: Node, m: Message): Node {
    if m.RequestVote? then Send(n, RequestVoteResp(n.config.id, m.from, n.term, false))
    else if m.AppendEntries? then Send(n, AppendEntriesResp(n.config.id, m.from, n.term, false, 0))
    else n
  }

  function Step(n: Node, m: Message): Node {
    if m.term > n.term then StepSameTerm(BecomeFollower(n, m.term, if m.AppendEntries? then m.from else 0), m)
    else if m.term < n.term then RejectStale(n, m)
    else StepSameTerm(n, m)
  }

  function Tick(n: Node): Node {
    if n.role == Leader then
      if n.heartbeatElapsed + 1 >= n.config.heartbeatTimeout then Broadcast(n.(heartbeatElapsed := 0))
      else n.(heartbeatElapsed := n.heartbeatElapsed + 1)
    else
      var n1 := n.(electionElapsed := n.electionElapsed + 1);
      if n1.electionElapsed >= n1.config.electionTimeout then BecomeCandidate(n1) else n1
  }

  function Propose(n: Node, data: Bytes): Node {
    if n.role != Leader then n
    else MaybeCommit(n.(log := n.log + [Entry(n.term, LastIndex(n.log) + 1, data)]))
  }

  /** The entries in (lastApplied, commit]. */
  function Unapplied(n: Node): seq<Entry>
    requires n.commit <= LastIndex(n.log)
  {
    if n.lastApplied <= n.commit then n.log[n.lastApplied + 1..n.commit + 1] else []
  }

  function Restore(n: Node, term: Term, vote: NodeId, entries: seq<Entry>): Node {
    n.(term := term, vote := vote, log := n.log + entries, stable := LastIndex(n.log + entries), dirty := false)
  }
}
