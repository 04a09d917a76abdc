/** The values the Raft core works on: log entries, the four message kinds and
    the whole state of one node. */
module RaftTypes {

  type Bytes = seq<bv8>

  /** Node identifiers are 1-based; 0 means "none". */
  type NodeId = nat
  type Term = nat

  datatype Entry = Entry(term: Term, index: nat, data: Bytes)

  const SENTINEL := Entry(0, 0, [])

  /** A log always carries the index-0 sentinel, so index i lives at log[i]. */
  type Log = l: seq<Entry> | |l| > 0 witness [SENTINEL]

  datatype Message =
    | RequestVote(from: NodeId, to: NodeId, term: Term, lastLogIndex: nat, lastLogTerm: Term)
    | RequestVoteResp(from: NodeId, to: NodeId, term: Term, granted: bool)
    | AppendEntries(from: NodeId, to: NodeId, term: Term,
                    prevLogIndex: nat, prevLogTerm: Term, entries: seq<Entry>, leaderCommit: nat)
    | AppendEntriesResp(from: NodeId, to: NodeId, term: Term, success: bool, matchIndex: nat)

  datatype Role = Follower | Candidate | Leader

  datatype Config = Config(id: NodeId, peers: seq<NodeId>, electionTimeout: int, heartbeatTimeout: int)

  /** Every field of the Raft class, as one value. */
  datatype Node = Node(
    config: Config,
    role: Role,
    term: Term,
    vote: NodeId,
    log: Log,
    commit: nat,
    lastApplied: nat,
    stable: nat,
    leader: NodeId,
    electionElapsed: int,
    heartbeatElapsed: int,
    votes: seq<NodeId>,
    next: map<NodeId, nat>,
    matched: map<NodeId, nat>,
    dirty: bool,
    out: seq<Message>)

  function LastIndex(log: Log): nat { |log| - 1 }

  function LastTerm(log: Log): Term { log[|log| - 1].term }

  function TermAt(log: Log, i: nat): Term {
    if i > LastIndex(log) then 0 else log[i].term
  }

  function QuorumSize(c: Config): nat { |c.peers| / 2 + 1 }

  /** std::map::operator[]: an absent key reads as 0. */
  function Lookup(m: map<NodeId, nat>, p: NodeId): nat {
    if p in m then m[p] else 0
  }

  /** Predecessor of an unsigned 64-bit integer, which wraps at 0. */
  function WrapDec(n: nat): nat {
    if n == 0 then 0xFFFF_FFFF_FFFF_FFFF else n - 1
  }

  ghost predicate Distinct<T(!new)>(s: seq<T>) {
    forall i, j | 0 <= i < j < |s| :: s[i] != s[j]
  }

  /** Both logs reach index i and hold the same entries up to it. */
  ghost predicate Agree(a: seq<Entry>, b: seq<Entry>, i: nat) {
    i < |a| && i < |b| && a[..i + 1] == b[..i + 1]
  }
}
