/** The Raft core as the class it is: methods that update the node in place and
    queue outgoing messages. */
module RaftCore {
  import opened RaftTypes
  import Spec = RaftSpec

  class Raft {
    const config: Config
    var role: Role
    var term: Term
    var vote: NodeId
    var log: Log
    var commit: nat
    var lastApplied: nat
    var stable: nat
    var leader: NodeId
    var electionElapsed: int
    var heartbeatElapsed: int
    var votes: seq<NodeId>
    var next: map<NodeId, nat>
    var matched: map<NodeId, nat>
    var dirty: bool
    var out: seq<Message>

    ghost function State(): Node
      reads this
    {
      Node(config, role, term, vote, log, commit, lastApplied, stable, leader, electionElapsed,
           heartbeatElapsed, votes, next, matched, dirty, out)
    }

    constructor (c: Config)
      ensures State() == Spec.Fresh(c)
    {
      config := c;
      role, term, vote, log := Follower, 0, 0, [SENTINEL];
      commit, lastApplied, stable, leader := 0, 0, 0, 0;
      electionElapsed, heartbeatElapsed, votes := 0, 0, [];
      next, matched, dirty, out := map[], map[], false, [];
    }

    method Tick()
      modifies this
      ensures State() == Spec.Tick(old(State()))
    {
      if role == Leader {
        heartbeatElapsed := heartbeatElapsed + 1;
        if heartbeatElapsed >= config.heartbeatTimeout {
          heartbeatElapsed := 0;
          BroadcastAppendEntries();
        }
        return;
      }
      electionElapsed := electionElapsed + 1;
      if electionElapsed >= config.electionTimeout {
        BecomeCandidate();
      }
    }

    method Step(m: Message)
      modifies this
      ensures State() == Spec.Step(old(State()), m)
    {
      if m.term > term {
        var lead := if m.AppendEntries? then m.from else 0;
        BecomeFollower(m.term, lead);
      } else if m.term < term {
        if m.RequestVote? {
          Send(RequestVoteResp(config.id, m.from, term, false));
        } else if m.AppendEntries? {
          Send(AppendEntriesResp(config.id, m.from, term, false, 0));
        }
        return;
      }
      match role
      case Follower => StepFollower(m);
      case Candidate => StepCandidate(m);
      case Leader => StepLeader(m);
    }

    method StepFollower(m: Message)
      modifies this
      ensures State() == Spec.StepFollower(old(State()), m)
    {
      if m.RequestVote? {
        HandleRequestVote(m);
      } else if m.AppendEntries? {
        HandleAppendEntries(m);
      }
    }

    method StepCandidate(m: Message)
      modifies this
      ensures State() == Spec.StepCandidate(old(State()), m)
    {
      match m
      case RequestVoteResp(from, _, _, granted) =>
        if granted {
          if from !in votes {
            votes := votes + [from];
          }
          if |votes| >= QuorumSize(config) {
            BecomeLeader();
          }
        }
      case AppendEntries(from, _, t, _, _, _, _) =>
        BecomeFollower(t, from);
        HandleAppendEntries(m);
      case RequestVote(_, _, _, _, _) =>
        HandleRequestVote(m);
      case AppendEntriesResp(_, _, _, _, _) =>
    }

    method StepLeader(m: Message)
      modifies this
      ensures State() == Spec.StepLeader(old(State()), m)
    {
      if m.RequestVote? {
        HandleRequestVote(m);
      } else if m.AppendEntriesResp? {
        HandleAppendEntriesResp(m);
      }
    }

    method HandleRequestVote(m: Message)
      requires m.RequestVote?
      modifies this
      ensures State() == Spec.HandleRequestVote(old(State()), m)
    {
      var canVote := vote == 0 || vote == m.from;
      var upToDate := m.lastLogTerm > LastTerm(log)
                      || (m.lastLogTerm == LastTerm(log) && m.lastLogIndex >= LastIndex(log));
      if canVote && upToDate {
        vote := m.from;
        dirty := true;
        electionElapsed := 0;
      }
      Send(RequestVoteResp(config.id, m.from, term, canVote && upToDate));
    }

    method HandleAppendEntries(m: Message)
      requires m.AppendEntries?
      modifies this
      ensures State() == Spec.HandleAppendEntries(old(State()), m)
    {
      leader := m.from;
      electionElapsed := 0;
      if m.prevLogIndex > LastIndex(log) || TermAt(log, m.prevLogIndex) != m.prevLogTerm {
        Send(AppendEntriesResp(config.id, m.from, term, false, 0));
        return;
      }
      AcceptEntries(m);
    }

    method AcceptEntries(m: Message)
      requires m.AppendEntries?
      modifies this`log, this`stable, this`commit, this`out
      ensures State() == Spec.Accept(old(State()), m)
    {
      hide Spec.Merge;
      MergeEntries(m.entries);
      if m.leaderCommit > commit {
        commit := Spec.Min(m.leaderCommit, LastIndex(log));
      }
      Send(AppendEntriesResp(config.id, m.from, term, true, m.prevLogIndex + |m.entries|));
    }

    /** Appends the entries, dropping any suffix that conflicts with one. */
    method MergeEntries(es: seq<Entry>)
      modifies this`log, this`stable
      ensures (log, stable) == Spec.Merge(old(log), old(stable), es)
    {
      for k := 0 to |es|
        invariant (log, stable) == Spec.Merge(old(log), old(stable), es[..k])
      {
        assert es[..k + 1][..k] == es[..k];
        var e := es[k];
        if e.index <= LastIndex(log) {
          if TermAt(log, e.index) == e.term {
            continue;
          }
          log := log[..e.index] + [e];
          if stable >= e.index {
            stable := WrapDec(e.index);
          }
        } else {
          log := log + [e];
        }
      }
      assert es[..|es|] == es;
    }

    method HandleAppendEntriesResp(m: Message)
      requires m.AppendEntriesResp?
      modifies this
      ensures State() == Spec.HandleAppendEntriesResp(old(State()), m)
    {
      if m.success {
        matched := matched[m.from := m.matchIndex];
        next := next[m.from := m.matchIndex + 1];
        MaybeCommit();
      } else {
        var k := Lookup(next, m.from);
        if k > 1 {
          k := k - 1;
        }
        next := next[m.from := k];
      }
    }

    method BecomeFollower(t: Term, lead: NodeId)
      modifies this
      ensures State() == Spec.BecomeFollower(old(State()), t, lead)
    {
      if t > term {
        term := t;
        vote := 0;
        dirty := true;
      }
      role := Follower;
      leader := lead;
      electionElapsed := 0;
    }

    method BecomeCandidate()
      modifies this
      ensures State() == Spec.BecomeCandidate(old(State()))
    {
      hide Spec.BecomeLeader, Spec.Others, Spec.VoteRequests;
      Campaign();
      if |votes| >= QuorumSize(config) {
        BecomeLeader();
        return;
      }
      RequestVotes();
    }

    /** Enters the next term as a candidate with its own vote. */
    method Campaign()
      modifies this`term, this`vote, this`dirty, this`role, this`leader, this`electionElapsed, this`votes
      ensures State() == Spec.Campaigning(old(State()))
    {
      term := term + 1;
      vote := config.id;
      dirty := true;
      role := Candidate;
      leader := 0;
      electionElapsed := 0;
      votes := [config.id];
    }

    method RequestVotes()
      modifies this`out
      ensures out == old(out) + Spec.VoteRequests(old(State()), Spec.Others(config.id, config.peers))
    {
      ghost var sent: seq<NodeId> := [];
      for k := 0 to |config.peers|
        invariant sent == Spec.Others(config.id, config.peers[..k])
        invariant out == old(out) + Spec.VoteRequests(old(State()), sent)
      {
        assert config.peers[..k + 1][..k] == config.peers[..k];
        if config.peers[k] != config.id {
          Send(RequestVote(config.id, config.peers[k], term, LastIndex(log), LastTerm(log)));
          sent := sent + [config.peers[k]];
        }
      }
      assert config.peers[..|config.peers|] == config.peers;
    }

    method BecomeLeader()
      modifies this
      ensures State() == Spec.BecomeLeader(old(State()))
    {
      hide Spec.Broadcast, Spec.PeerMap, Spec.Others, Spec.AppendMsgs;
      role := Leader;
      leader := config.id;
      heartbeatElapsed := 0;
      ResetPeers();
      BroadcastAppendEntries();
    }

    method ResetPeers()
      modifies this`next, this`matched
      ensures next == Spec.PeerMap(config.id, config.peers, LastIndex(log) + 1)
      ensures matched == Spec.PeerMap(config.id, config.peers, 0)
    {
      next := map[];
      matched := map[];
      for k := 0 to |config.peers|
        invariant next == Spec.PeerMap(config.id, config.peers[..k], LastIndex(log) + 1)
        invariant matched == Spec.PeerMap(config.id, config.peers[..k], 0)
      {
        assert config.peers[..k + 1][..k] == config.peers[..k];
        if config.peers[k] != config.id {
          next := next[config.peers[k] := LastIndex(log) + 1];
          matched := matched[config.peers[k] := 0];
        }
      }
      assert config.peers[..|config.peers|] == config.peers;
    }

    method BroadcastAppendEntries()
      modifies this`out
      ensures State() == Spec.Broadcast(old(State()))
    {
      ghost var sent: seq<NodeId> := [];
      for k := 0 to |config.peers|
        invariant sent == Spec.Others(config.id, config.peers[..k])
        invariant out == old(out) + Spec.AppendMsgs(old(State()), sent)
      {
        assert config.peers[..k + 1][..k] == config.peers[..k];
        if config.peers[k] != config.id {
          SendAppendEntries(config.peers[k]);
          sent := sent + [config.peers[k]];
        }
      }
      assert config.peers[..|config.peers|] == config.peers;
    }

    method SendAppendEntries(peer: NodeId)
      modifies this`out
      ensures State() == Spec.Send(old(State()), Spec.AppendMsg(old(State()), peer))
    {
      var from := Lookup(next, peer);
      var prev := WrapDec(from);
      var entries: seq<Entry> := [];
      var i := from;
      while i <= LastIndex(log)
        invariant from <= i && (i <= |log| || i == from)
        invariant entries == if i <= |log| then log[from..i] else []
      {
        entries := entries + [log[i]];
        i := i + 1;
      }
      assert entries == Spec.Suffix(log, from);
      Send(AppendEntries(config.id, peer, term, prev, TermAt(log, prev), entries, commit));
    }

    method MaybeCommit()
      modifies this`commit
      ensures State() == Spec.MaybeCommit(old(State()))
    {
      var n := LastIndex(log);
      while n > commit
        invariant commit == old(commit) && 0 <= n
        invariant Spec.CommitPoint(State(), LastIndex(log)) == Spec.CommitPoint(State(), n)
      {
        if TermAt(log, n) == term {
          var replicas := 1;
          for k := 0 to |config.peers|
            invariant replicas == 1 + Spec.Holders(State(), config.peers[..k], n)
          {
            assert config.peers[..k + 1][..k] == config.peers[..k];
            if config.peers[k] != config.id && Lookup(matched, config.peers[k]) >= n {
              replicas := replicas + 1;
            }
          }
          assert config.peers[..|config.peers|] == config.peers;
          if replicas >= QuorumSize(config) {
            commit := n;
            break;
          }
        }
        n := n - 1;
      }
    }

    method Propose(data: Bytes) returns (accepted: bool)
      modifies this
      ensures accepted <==> old(role) == Leader
      ensures State() == Spec.Propose(old(State()), data)
    {
      if role != Leader {
        return false;
      }
      log := log + [Entry(term, LastIndex(log) + 1, data)];
      MaybeCommit();
      return true;
    }

    method TakeCommitted() returns (es: seq<Entry>)
      requires commit <= LastIndex(log)
      modifies this`lastApplied
      ensures es == Spec.Unapplied(old(State()))
      ensures State() == old(State()).(lastApplied := commit)
    {
      es := [];
      var i := lastApplied + 1;
      while i <= commit
        invariant lastApplied + 1 <= i && (i <= commit + 1 || i == lastApplied + 1)
        invariant es == if i <= commit + 1 then log[lastApplied + 1..i] else []
        invariant lastApplied == old(lastApplied)
      {
        es := es + [log[i]];
        i := i + 1;
      }
      lastApplied := commit;
    }

    method TakeMessages() returns (ms: seq<Message>)
      modifies this
      ensures ms == old(out) && State() == old(State()).(out := [])
    {
      ms := out;
      out := [];
    }

    method Restore(t: Term, v: NodeId, entries: seq<Entry>)
      modifies this`term, this`vote, this`log, this`stable, this`dirty
      ensures State() == Spec.Restore(old(State()), t, v, entries)
    {
      term := t;
      vote := v;
      for k := 0 to |entries|
        invariant log == old(log) + entries[..k]
        invariant term == t && vote == v && stable == old(stable) && dirty == old(dirty)
      {
        log := log + [entries[k]];
      }
      assert entries[..|entries|] == entries;
      stable := LastIndex(log);
      dirty := false;
    }

    method Send(m: Message)
      modifies this`out
      ensures State() == Spec.Send(old(State()), m)
    {
      out := out + [m];
    }
  }
}
