/** The moves that add to the history: voting, standing, winning, committing and
    proposing. Each keeps Inv. */
module RaftGrowth {
  import opened RaftTypes
  import opened RaftProtocol
  import opened RaftMoves

  // ------------------------------------------------- what growth preserves

  ghost predicate Grows(h: History, h': History) {
    && h.ballots <= h'.ballots
    && h.commits <= h'.commits
    && Extends(h.leaderLog, h'.leaderLog)
    && (forall t | t in h.elected :: t in h'.elected && h'.elected[t] == h.elected[t])
    && (forall k | k in h.cand :: k in h'.cand && h'.cand[k] == h.cand[k])
  }

  lemma SettledGrows(h: History, h': History, l: seq<Entry>, c: nat, t: Term)
    requires Grows(h, h') && Settled(h, l, c, t)
    ensures Settled(h', l, c, t)
  {
    if c != 0 {
      var k :| k in h.commits && k.term <= t && c <= k.index && k.term in h.leaderLog
               && Agree(l, h.leaderLog[k.term], c);
      AgreeExtend(l, h.leaderLog[k.term], h'.leaderLog[k.term], c);
      assert k in h'.commits;
    }
  }

  lemma SettledLonger(h: History, l: seq<Entry>, l': seq<Entry>, c: nat, t: Term)
    requires Settled(h, l, c, t) && l <= l'
    ensures Settled(h, l', c, t)
  {
    if c != 0 {
      var k :| k in h.commits && k.term <= t && c <= k.index && k.term in h.leaderLog
               && Agree(l, h.leaderLog[k.term], c);
      AgreeExtend(h.leaderLog[k.term], l, l', c);
    }
  }

  lemma AppendGrows(h: History, h': History, m: Message)
    requires m.AppendEntries? && Grows(h, h') && AppendOk(h, m)
    ensures AppendOk(h', m)
  {
    var l, l' := h.leaderLog[m.term], h'.leaderLog[m.term];
    assert l <= l';
    assert l[m.prevLogIndex] == l'[m.prevLogIndex];
    assert m.entries == l'[m.prevLogIndex + 1..m.prevLogIndex + 1 + |m.entries|];
    SettledGrows(h, h', l, m.leaderCommit, m.term);
    SettledLonger(h', l, l', m.leaderCommit, m.term);
  }

  lemma MsgGrows(ms: set<NodeId>, h: History, h': History, m: Message)
    requires Grows(h, h') && MsgOk(ms, h, m)
    ensures MsgOk(ms, h', m)
  {
    hide AppendOk;
    if m.AppendEntries? {
      AppendGrows(h, h', m);
    }
  }

  lemma MsgsGrow(ms: set<NodeId>, s: View, s': View)
    requires s.nodes.Keys == ms == s'.nodes.Keys
    requires MsgsOk(ms, s) && Grows(s.h, s'.h) && s'.msgs == s.msgs
    requires forall v | v in ms :: s.nodes[v].term <= s'.nodes[v].term
    ensures MsgsOk(ms, s')
  {
    hide MsgOk, Grows;
    forall m | m in s.msgs ensures MsgOk(ms, s'.h, m) {
      MsgGrows(ms, s.h, s'.h, m);
    }
  }

  lemma NodeGrows(ms: set<NodeId>, h: History, h': History, msgs: set<Message>, v: NodeId, n: Replica)
    requires Grows(h, h') && NodeOk(ms, h, msgs, v, n)
    requires n.role == Leader ==> n.term in h'.leaderLog && h'.leaderLog[n.term] == n.log
    requires n.role == Candidate && n.term in h'.elected ==> h'.elected[n.term].leader != v
    ensures NodeOk(ms, h', msgs, v, n)
  {
    GoodExtends(h.leaderLog, h'.leaderLog, n.log);
    SettledGrows(h, h', n.log, n.commit, n.term);
    hide Good, Settled, Extends, PeerOk;
  }

  lemma AckedGrows(s: View, s': View, t: Term, v: NodeId, i: nat)
    requires Grows(s.h, s'.h) && s.msgs <= s'.msgs && Acked(s, t, v, i)
    ensures Acked(s', t, v, i)
  {
  }

  lemma CommitsGrow(ms: set<NodeId>, s: View, s': View)
    requires CommitsOk(ms, s) && Grows(s.h, s'.h) && s.msgs <= s'.msgs
    ensures forall k | k in s.h.commits :: CommitOk(ms, s', k)
  {
    forall k | k in s.h.commits ensures CommitOk(ms, s', k) {
      assert CommitOk(ms, s, k);
      assert s.h.leaderLog[k.term] <= s'.h.leaderLog[k.term];
      forall q | q in k.holders ensures Acked(s', k.term, q, k.index) {
        AckedGrows(s, s', k.term, q, k.index);
      }
    }
  }

  /** What every later leader kept in the larger history, it kept before. */
  lemma AllKeepBack(h: History, h': History, t: Term, i: nat, upTo: int)
    requires Grows(h, h') && t in h.leaderLog && i < |h.leaderLog[t]| && AllKeep(h', t, i, upTo)
    ensures AllKeep(h, t, i, upTo)
  {
    forall u | u in h.elected && t < u <= upTo ensures Agree(h.elected[u].init, h.leaderLog[t], i) {
      AgreeExtend(h.elected[u].init, h.leaderLog[t], h'.leaderLog[t], i);
    }
  }

  // ------------------------------------------------------ granting a vote

  ghost predicate UpToDate(candidate: Log, voter: Log) {
    || LastTerm(candidate) > LastTerm(voter)
    || (LastTerm(candidate) == LastTerm(voter) && LastIndex(candidate) >= LastIndex(voter))
  }

  /** A candidate that passes the up-to-date check against a log holding index i
      of term t holds it too, unless some leader in between lacked it. */
  lemma UpToDateKeeps(ms: set<NodeId>, h: History, b: Log, a: Log, u: Term, t: Term, i: nat)
    requires ElectionsOk(ms, h) && Good(h.leaderLog, a) && Good(h.leaderLog, b)
    requires UpToDate(b, a) && LastTerm(b) < u
    requires Current(h, t, i) && AllKeep(h, t, i, u - 1) && Agree(a, h.leaderLog[t], i)
    ensures Agree(b, h.leaderLog[t], i)
  {
    AgreeDown(a, h.leaderLog[t], i, i);
    var last := |b| - 1;
    var w := b[last].term;
    assert t <= w;
    assert ElectionOk(ms, h, t, h.elected[t]);
    if w == t {
      AgreeDown(b, h.leaderLog[t], last, i);
    } else {
      assert ElectionOk(ms, h, w, h.elected[w]);
      AgreeDown(b, h.leaderLog[w], last, last);
      LaterLeaderKeeps(h, b, w, t, i);
    }
  }

  lemma LaterLeaderKeeps(h: History, b: Log, w: Term, t: Term, i: nat)
    requires w in h.elected && w in h.leaderLog && t in h.leaderLog && h.elected[w].init <= h.leaderLog[w]
    requires Agree(b, h.leaderLog[w], |b| - 1) && |h.elected[w].init| < |b|
    requires Agree(h.elected[w].init, h.leaderLog[t], i)
    ensures Agree(b, h.leaderLog[t], i)
  {
    AgreeDown(b, h.leaderLog[w], |b| - 1, i);
    AgreeExtend(h.leaderLog[t], h.elected[w].init, h.leaderLog[w], i);
  }

  ghost predicate CanGrant(ms: set<NodeId>, s: View, v: NodeId, c: NodeId) {
    && v in s.nodes && c in ms
    && s.nodes[v].vote == 0
    && Slot(s.nodes[v].term, c) in s.h.cand
    && UpToDate(s.h.cand[Slot(s.nodes[v].term, c)], s.nodes[v].log)
  }

  ghost function Granted(s: View, v: NodeId, c: NodeId): View
    requires v in s.nodes
  {
    s.(nodes := s.nodes[v := s.nodes[v].(vote := c)],
       h := s.h.(ballots := s.h.ballots + {Ballot(s.nodes[v].term, v, c)}))
  }

  lemma GrantNodes(ms: set<NodeId>, s: View, v: NodeId, c: NodeId)
    requires NodesOk(ms, s) && v in ms && CanGrant(ms, s, v, c)
    ensures NodesOk(ms, Granted(s, v, c))
  {
    hide Good, Settled, PeerOk;
    var s' := Granted(s, v, c);
    forall w | w in ms ensures NodeOk(ms, s'.h, s'.msgs, w, s'.nodes[w]) {
      var n := s.nodes[w];
      assert NodeOk(ms, s.h, s.msgs, w, n);
      assert Settled(s'.h, n.log, n.commit, n.term) by {
        SettledGrows(s.h, s'.h, n.log, n.commit, n.term);
      }
    }
  }

  lemma ElectionsKept(ms: set<NodeId>, h: History, h': History)
    requires ElectionsOk(ms, h) && Grows(h, h')
    requires h'.elected == h.elected && h'.leaderLog == h.leaderLog
    ensures ElectionsOk(ms, h')
  {
    hide Good, Quorum, Extends;
    forall t | t in h'.elected ensures ElectionOk(ms, h', t, h'.elected[t]) {
      assert ElectionOk(ms, h, t, h.elected[t]);
    }
  }

  lemma GrantBallots(ms: set<NodeId>, s: View, v: NodeId, c: NodeId)
    requires 0 !in ms && s.nodes.Keys == ms && BallotsOk(ms, s) && CanGrant(ms, s, v, c)
    ensures BallotsOk(ms, Granted(s, v, c))
  {
  }

  lemma GrantBasic(ms: set<NodeId>, s: View, v: NodeId, c: NodeId)
    requires Basic(ms, s) && v in ms && CanGrant(ms, s, v, c)
    ensures Basic(ms, Granted(s, v, c))
  {
    hide NodeOk, ElectionsOk, MsgsOk, BallotsOk, SlotsOk;
    GrantNodes(ms, s, v, c);
    GrantBallots(ms, s, v, c);
    MsgsGrow(ms, s, Granted(s, v, c));
    ElectionsKept(ms, s.h, Granted(s, v, c).h);
    SlotsGrow(s.h, Granted(s, v, c).h);
  }

  lemma SlotsGrow(h: History, h': History)
    requires SlotsOk(h) && Extends(h.leaderLog, h'.leaderLog) && h'.cand == h.cand
    ensures SlotsOk(h')
  {
    hide Good, Extends;
    forall k | k in h.cand ensures Good(h'.leaderLog, h.cand[k]) {
      GoodExtends(h.leaderLog, h'.leaderLog, h.cand[k]);
    }
  }

  lemma GrantCarries(ms: set<NodeId>, s: View, v: NodeId, c: NodeId)
    requires ElectionsOk(ms, s.h) && AcksOk(s) && SlotsOk(s.h)
    requires CanGrant(ms, s, v, c) && Good(s.h.leaderLog, s.nodes[v].log)
    requires s.nodes[v].term !in s.h.elected
    ensures Carries(s, s.nodes[v].term, v, c)
  {
    hide ElectionsOk, Good;
    var u := s.nodes[v].term;
    forall t: Term, i: nat ensures CarriesOne(s, u, v, c, t, i) {
      if t < u && Acked(s, t, v, i) && Current(s.h, t, i) && AllKeep(s.h, t, i, u - 1) {
        assert AllKeep(s.h, t, i, u);
        assert AckHeld(s, t, v, i);
        UpToDateKeeps(ms, s.h, s.h.cand[Slot(u, c)], s.nodes[v].log, u, t, i);
      }
    }
  }

  lemma SameCarries(s: View, s': View, u: Term, v: NodeId, c: NodeId)
    requires Carries(s, u, v, c)
    requires forall t: Term, i: nat
               | t < u && Acked(s', t, v, i) && Current(s'.h, t, i) && AllKeep(s'.h, t, i, u - 1) ::
               Acked(s, t, v, i) && Current(s.h, t, i) && AllKeep(s.h, t, i, u - 1)
    requires Extends(s.h.leaderLog, s'.h.leaderLog)
    requires Slot(u, c) in s.h.cand && Slot(u, c) in s'.h.cand && s'.h.cand[Slot(u, c)] == s.h.cand[Slot(u, c)]
    ensures Carries(s', u, v, c)
  {
    forall t: Term, i: nat ensures CarriesOne(s', u, v, c, t, i) {
      assert CarriesOne(s, u, v, c, t, i);
      if t < u && Acked(s', t, v, i) && Current(s'.h, t, i) && AllKeep(s'.h, t, i, u - 1) {
        AgreeExtend(s.h.cand[Slot(u, c)], s.h.leaderLog[t], s'.h.leaderLog[t], i);
      }
    }
  }

  lemma GrantAcks(s: View, v: NodeId, c: NodeId)
    requires AcksOk(s) && v in s.nodes
    ensures AcksOk(Granted(s, v, c))
    ensures forall t: Term, w: NodeId, i: nat :: Acked(Granted(s, v, c), t, w, i) == Acked(s, t, w, i)
  {
    var s' := Granted(s, v, c);
    forall t: Term, w: NodeId, i: nat ensures AckHeld(s', t, w, i) {
      assert AckHeld(s, t, w, i);
    }
  }

  lemma GrantVotes(ms: set<NodeId>, s: View, v: NodeId, c: NodeId)
    requires Basic(ms, s) && AcksOk(s) && VotesOk(s) && v in ms && CanGrant(ms, s, v, c)
    ensures VotesOk(Granted(s, v, c))
  {
    hide NodeOk, MsgsOk, SlotsOk, Carries, Acked, Good;
    var s' := Granted(s, v, c);
    GrantAcks(s, v, c);
    assert forall t: Term, i: nat, u: int :: AllKeep(s'.h, t, i, u) == AllKeep(s.h, t, i, u);
    if s.nodes[v].term !in s.h.elected {
      assert NodeOk(ms, s.h, s.msgs, v, s.nodes[v]);
      NodeLogGood(ms, s, v);
      GrantCarries(ms, s, v, c);
    }
    hide AcksOk;
    forall b | b in s'.h.ballots && b.term !in s'.h.elected ensures Carries(s', b.term, b.voter, b.cand) {
      SameCarries(s, s', b.term, b.voter, b.cand);
    }
    forall u, w | u in s'.h.elected && w in s'.h.elected[u].voters ensures Carries(s', u, w, s'.h.elected[u].leader) {
      assert ElectionOk(ms, s.h, u, s.h.elected[u]);
      SameCarries(s, s', u, w, s.h.elected[u].leader);
    }
  }

  lemma NodeLogGood(ms: set<NodeId>, s: View, v: NodeId)
    requires NodesOk(ms, s) && v in ms
    ensures Good(s.h.leaderLog, s.nodes[v].log)
  {
    assert NodeOk(ms, s.h, s.msgs, v, s.nodes[v]);
  }

  /** A node that has not voted in its term votes for an up-to-date candidate. */
  lemma Grant(ms: set<NodeId>, s: View, v: NodeId, c: NodeId)
    requires Inv(ms, s) && v in ms && CanGrant(ms, s, v, c)
    ensures Inv(ms, Granted(s, v, c))
  {
    assert v in s.nodes;
    hide Basic, AcksOk, VotesOk, CommitOk, CanGrant;
    GrantBasic(ms, s, v, c);
    GrantAcks(s, v, c);
    GrantVotes(ms, s, v, c);
    CommitsGrow(ms, s, Granted(s, v, c));
  }

  // ------------------------------------------------------------- standing

  ghost function Stood(s: View, v: NodeId): View
    requires v in s.nodes
  {
    var n := s.nodes[v];
    s.(nodes := s.nodes[v := n.(role := Candidate, term := n.term + 1, vote := v, votes := {v})],
       h := s.h.(ballots := s.h.ballots + {Ballot(n.term + 1, v, v)},
                 cand := s.h.cand[Slot(n.term + 1, v) := n.log]))
  }

  lemma StandGrows(ms: set<NodeId>, s: View, v: NodeId)
    requires SlotTerms(ms, s) && v in ms
    ensures Slot(s.nodes[v].term + 1, v) !in s.h.cand && Grows(s.h, Stood(s, v).h)
  {
  }

  lemma StandNodes(ms: set<NodeId>, s: View, v: NodeId)
    requires NodesOk(ms, s) && SlotTerms(ms, s) && ElectionsOk(ms, s.h) && v in ms
    ensures NodesOk(ms, Stood(s, v))
  {
    hide Good, Settled, PeerOk, Quorum;
    var s' := Stood(s, v);
    StandGrows(ms, s, v);
    forall w | w in ms ensures NodeOk(ms, s'.h, s'.msgs, w, s'.nodes[w]) {
      assert NodeOk(ms, s.h, s.msgs, w, s.nodes[w]);
      if w == v {
        var n := s.nodes[v];
        SettledGrows(s.h, s'.h, n.log, n.commit, n.term);
        assert Settled(s'.h, n.log, n.commit, n.term + 1) by {
          SettledLater(s'.h, n.log, n.commit, n.term, n.term + 1);
        }
        if n.term + 1 in s.h.elected {
          assert ElectionOk(ms, s.h, n.term + 1, s.h.elected[n.term + 1]);
        }
      } else {
        NodeGrows(ms, s.h, s'.h, s.msgs, w, s.nodes[w]);
      }
    }
  }

  lemma SettledLater(h: History, l: seq<Entry>, c: nat, t: Term, u: Term)
    requires Settled(h, l, c, t) && t <= u
    ensures Settled(h, l, c, u)
  {
  }

  lemma StandBallots(ms: set<NodeId>, s: View, v: NodeId)
    requires s.nodes.Keys == ms && BallotsOk(ms, s) && v in ms
    ensures BallotsOk(ms, Stood(s, v))
  {
  }

  lemma StandSlots(ms: set<NodeId>, s: View, v: NodeId)
    requires NodesOk(ms, s) && SlotsOk(s.h) && v in ms
    ensures SlotsOk(Stood(s, v).h)
  {
    assert NodeOk(ms, s.h, s.msgs, v, s.nodes[v]);
    hide Good, NodesOk;
  }

  lemma StandBasic(ms: set<NodeId>, s: View, v: NodeId)
    requires Basic(ms, s) && v in ms
    ensures Basic(ms, Stood(s, v))
  {
    hide NodeOk, ElectionsOk, MsgsOk, BallotsOk, SlotsOk;
    StandGrows(ms, s, v);
    StandNodes(ms, s, v);
    StandBallots(ms, s, v);
    MsgsGrow(ms, s, Stood(s, v));
    ElectionsKept(ms, s.h, Stood(s, v).h);
    StandSlots(ms, s, v);
  }

  lemma StandAcks(s: View, v: NodeId)
    requires AcksOk(s) && v in s.nodes
    ensures AcksOk(Stood(s, v))
    ensures forall t: Term, w: NodeId, i: nat :: Acked(Stood(s, v), t, w, i) == Acked(s, t, w, i)
  {
    var s' := Stood(s, v);
    forall t: Term, w: NodeId, i: nat ensures AckHeld(s', t, w, i) {
      assert AckHeld(s, t, w, i);
    }
  }

  /** A candidate's vote for itself carries over everything it acknowledged. */
  lemma StandCarries(s: View, v: NodeId)
    requires AcksOk(s) && v in s.nodes
    ensures Carries(Stood(s, v), s.nodes[v].term + 1, v, v)
  {
    var s' := Stood(s, v);
    var u := s.nodes[v].term + 1;
    forall t: Term, i: nat ensures CarriesOne(s', u, v, v, t, i) {
      assert AckHeld(s, t, v, i);
      assert Acked(s', t, v, i) == Acked(s, t, v, i);
      assert AllKeep(s'.h, t, i, u - 1) == AllKeep(s.h, t, i, u - 1);
    }
  }

  lemma StandVotes(ms: set<NodeId>, s: View, v: NodeId)
    requires BallotsOk(ms, s) && SlotTerms(ms, s) && ElectionsOk(ms, s.h) && AcksOk(s) && VotesOk(s) && v in ms
    ensures VotesOk(Stood(s, v))
  {
    hide Carries, Acked, Good, Quorum;
    var s' := Stood(s, v);
    StandAcks(s, v);
    StandGrows(ms, s, v);
    assert forall t: Term, i: nat, u: int :: AllKeep(s'.h, t, i, u) == AllKeep(s.h, t, i, u);
    StandCarries(s, v);
    hide AcksOk;
    forall b | b in s'.h.ballots && b.term !in s'.h.elected ensures Carries(s', b.term, b.voter, b.cand) {
      if b in s.h.ballots {
        SameCarries(s, s', b.term, b.voter, b.cand);
      }
    }
    forall u, w | u in s'.h.elected && w in s'.h.elected[u].voters ensures Carries(s', u, w, s'.h.elected[u].leader) {
      assert ElectionOk(ms, s.h, u, s.h.elected[u]);
      SameCarries(s, s', u, w, s.h.elected[u].leader);
    }
  }

  /** Any node may start an election in the next term. */
  lemma Stand(ms: set<NodeId>, s: View, v: NodeId)
    requires Inv(ms, s) && v in ms
    ensures Inv(ms, Stood(s, v))
  {
    hide NodeOk, BallotsOk, SlotsOk, ElectionsOk, MsgsOk, AcksOk, VotesOk, CommitOk, Stood, Grows;
    StandBasic(ms, s, v);
    StandAcks(s, v);
    StandVotes(ms, s, v);
    StandGrows(ms, s, v);
    StandSame(s, v);
    CommitsGrow(ms, s, Stood(s, v));
  }

  lemma StandSame(s: View, v: NodeId)
    requires v in s.nodes
    ensures Stood(s, v).msgs == s.msgs && Stood(s, v).h.commits == s.h.commits
  {
  }

  // -------------------------------------------------------------- winning

  ghost function Won(s: View, v: NodeId, next: map<NodeId, nat>, matched: map<NodeId, nat>): View
    requires v in s.nodes
  {
    var n := s.nodes[v];
    s.(nodes := s.nodes[v := n.(role := Leader, next := next, matched := matched)],
       h := s.h.(elected := s.h.elected[n.term := Election(v, n.log, n.votes)],
                 leaderLog := s.h.leaderLog[n.term := n.log]))
  }

  /** A candidate with a majority, whose peers all start just past its log. */
  ghost predicate CanWin(ms: set<NodeId>, s: View, v: NodeId, next: map<NodeId, nat>, matched: map<NodeId, nat>) {
    && v in s.nodes && s.nodes[v].role == Candidate && Quorum(ms, s.nodes[v].votes)
    && (forall p | p in ms && p != v ::
          p in next && p in matched && next[p] == |s.nodes[v].log| && matched[p] == 0)
  }

  /** The term of a winning candidate has had no other leader. */
  lemma WinsFreshTerm(ms: set<NodeId>, s: View, v: NodeId, next: map<NodeId, nat>, matched: map<NodeId, nat>)
    requires NodesOk(ms, s) && BallotsOk(ms, s) && ElectionsOk(ms, s.h)
    requires v in ms && CanWin(ms, s, v, next, matched)
    ensures s.nodes[v].term !in s.h.elected && s.nodes[v].term !in s.h.leaderLog
    ensures Grows(s.h, Won(s, v, next, matched).h)
  {
    hide BallotsOk, Good, Settled;
    assert NodeOk(ms, s.h, s.msgs, v, s.nodes[v]);
    hide ElectionOk, Quorum;
    if s.nodes[v].term in s.h.elected {
      OneLeader(ms, s, s.nodes[v].term, s.nodes[v].votes, v);
    }
  }

  lemma WinNodes(ms: set<NodeId>, s: View, v: NodeId, next: map<NodeId, nat>, matched: map<NodeId, nat>)
    requires NodesOk(ms, s) && v in ms && CanWin(ms, s, v, next, matched)
    requires Grows(s.h, Won(s, v, next, matched).h) && s.nodes[v].term !in s.h.elected
    ensures NodesOk(ms, Won(s, v, next, matched))
  {
    hide Good, Settled, Quorum;
    var s' := Won(s, v, next, matched);
    forall w | w in ms ensures NodeOk(ms, s'.h, s'.msgs, w, s'.nodes[w]) {
      var n := s.nodes[w];
      assert NodeOk(ms, s.h, s.msgs, w, n);
      if w == v {
        GoodExtends(s.h.leaderLog, s'.h.leaderLog, n.log);
        SettledGrows(s.h, s'.h, n.log, n.commit, n.term);
      } else {
        NodeGrows(ms, s.h, s'.h, s.msgs, w, n);
      }
    }
  }

  lemma OlderLog(ll: map<Term, Log>, l: Log, t: Term)
    requires Good(ll, l) && LastTerm(l) < t
    ensures forall i | 0 <= i < |l| :: l[i].term < t
  {
  }

  lemma WinElection(ms: set<NodeId>, s: View, v: NodeId, next: map<NodeId, nat>, matched: map<NodeId, nat>)
    requires v in ms && s.nodes.Keys == ms && CandidateOk(ms, s.h, v, s.nodes[v]) && CanWin(ms, s, v, next, matched)
    requires Good(s.h.leaderLog, s.nodes[v].log) && LastTerm(s.nodes[v].log) < s.nodes[v].term
    requires Grows(s.h, Won(s, v, next, matched).h)
    ensures var h := Won(s, v, next, matched).h; ElectionOk(ms, h, s.nodes[v].term, h.elected[s.nodes[v].term])
  {
    var n := s.nodes[v];
    OlderLog(s.h.leaderLog, n.log, n.term);
    GoodExtends(s.h.leaderLog, Won(s, v, next, matched).h.leaderLog, n.log);
    hide Good, Quorum, Extends;
  }

  lemma WinnerFacts(ms: set<NodeId>, s: View, v: NodeId, next: map<NodeId, nat>, matched: map<NodeId, nat>)
    requires NodesOk(ms, s) && SlotsOk(s.h) && v in ms && CanWin(ms, s, v, next, matched)
    ensures LastTerm(s.nodes[v].log) < s.nodes[v].term && Good(s.h.leaderLog, s.nodes[v].log)
    ensures CandidateOk(ms, s.h, v, s.nodes[v])
  {
    assert NodeOk(ms, s.h, s.msgs, v, s.nodes[v]);
    hide NodesOk, Good, Settled;
  }

  lemma WinElections(ms: set<NodeId>, s: View, v: NodeId, next: map<NodeId, nat>, matched: map<NodeId, nat>)
    requires NodesOk(ms, s) && SlotsOk(s.h) && ElectionsOk(ms, s.h) && v in ms && CanWin(ms, s, v, next, matched)
    requires Grows(s.h, Won(s, v, next, matched).h) && s.nodes[v].term !in s.h.elected
    ensures ElectionsOk(ms, Won(s, v, next, matched).h)
  {
    hide NodeOk, SlotsOk, CanWin, ElectionOk, CandidateOk, Good;
    var h := Won(s, v, next, matched).h;
    WinnerFacts(ms, s, v, next, matched);
    WinElection(ms, s, v, next, matched);
    forall t | t in s.h.elected ensures ElectionOk(ms, h, t, h.elected[t]) {
      SameElection(ms, s.h, h, t);
    }
  }

  lemma SameElection(ms: set<NodeId>, h: History, h': History, t: Term)
    requires Grows(h, h') && t in h.elected && t in h'.elected && ElectionOk(ms, h, t, h.elected[t])
    requires h'.elected[t] == h.elected[t] && t in h'.leaderLog && h'.leaderLog[t] == h.leaderLog[t]
    ensures ElectionOk(ms, h', t, h'.elected[t])
  {
    hide Good, Quorum;
    GoodExtends(h.leaderLog, h'.leaderLog, h.leaderLog[t]);
  }

  lemma WinBasic(ms: set<NodeId>, s: View, v: NodeId, next: map<NodeId, nat>, matched: map<NodeId, nat>)
    requires Basic(ms, s) && v in ms && CanWin(ms, s, v, next, matched)
    ensures Basic(ms, Won(s, v, next, matched))
  {
    hide NodeOk, ElectionsOk, MsgsOk, SlotsOk, CanWin, Quorum;
    WinsFreshTerm(ms, s, v, next, matched);
    WinNodes(ms, s, v, next, matched);
    WinElections(ms, s, v, next, matched);
    MsgsGrow(ms, s, Won(s, v, next, matched));
    SlotsGrow(s.h, Won(s, v, next, matched).h);
  }

  /** In a term just won, only the leader itself counts as holding its log. */
  lemma WinAcked(
      ms: set<NodeId>, s: View, v: NodeId, next: map<NodeId, nat>, matched: map<NodeId, nat>,
      t: Term, w: NodeId, i: nat)
    requires MsgsOk(ms, s) && v in ms && s.nodes[v].term !in s.h.elected
    requires Grows(s.h, Won(s, v, next, matched).h)
    requires Acked(Won(s, v, next, matched), t, w, i)
    ensures if t == s.nodes[v].term then w == v && i < |s.nodes[v].log| else Acked(s, t, w, i)
  {
    hide AppendOk, Extends;
  }

  lemma NotCurrentYet(s: View, v: NodeId, next: map<NodeId, nat>, matched: map<NodeId, nat>, i: nat)
    requires v in s.nodes && LastTerm(s.nodes[v].log) < s.nodes[v].term && Good(s.h.leaderLog, s.nodes[v].log)
    ensures !Current(Won(s, v, next, matched).h, s.nodes[v].term, i)
  {
  }

  lemma WinAcks(ms: set<NodeId>, s: View, v: NodeId, next: map<NodeId, nat>, matched: map<NodeId, nat>)
    requires MsgsOk(ms, s) && AcksOk(s) && v in ms && s.nodes[v].term !in s.h.elected
    requires Grows(s.h, Won(s, v, next, matched).h)
    ensures AcksOk(Won(s, v, next, matched))
  {
    assert v in s.nodes;
    hide MsgsOk;
    var s' := Won(s, v, next, matched);
    forall t: Term, w: NodeId, i: nat ensures AckHeld(s', t, w, i) {
      assert AckHeld(s, t, w, i);
      if w in s.nodes && Acked(s', t, w, i) && AllKeep(s'.h, t, i, s'.nodes[w].term) {
        WinAcked(ms, s, v, next, matched, t, w, i);
        if t != s.nodes[v].term {
          AllKeepBack(s.h, s'.h, t, i, s'.nodes[w].term);
        }
      }
    }
  }

  lemma WinCarries(
      ms: set<NodeId>, s: View, v: NodeId, next: map<NodeId, nat>, matched: map<NodeId, nat>,
      u: Term, w: NodeId, c: NodeId)
    requires MsgsOk(ms, s) && v in ms && s.nodes[v].term !in s.h.elected
    requires Grows(s.h, Won(s, v, next, matched).h)
    requires LastTerm(s.nodes[v].log) < s.nodes[v].term && Good(s.h.leaderLog, s.nodes[v].log)
    requires Carries(s, u, w, c) && Slot(u, c) in s.h.cand
    ensures Carries(Won(s, v, next, matched), u, w, c)
  {
    assert v in s.nodes;
    hide Good, MsgsOk, Carries;
    var s' := Won(s, v, next, matched);
    forall t: Term, i: nat | t < u && Acked(s', t, w, i) && Current(s'.h, t, i) && AllKeep(s'.h, t, i, u - 1)
      ensures Acked(s, t, w, i) && Current(s.h, t, i) && AllKeep(s.h, t, i, u - 1)
    {
      NotCurrentYet(s, v, next, matched, i);
      WinAcked(ms, s, v, next, matched, t, w, i);
      AllKeepBack(s.h, s'.h, t, i, u - 1);
    }
    SameCarries(s, s', u, w, c);
  }

  lemma WinVotes(ms: set<NodeId>, s: View, v: NodeId, next: map<NodeId, nat>, matched: map<NodeId, nat>)
    requires MsgsOk(ms, s) && v in ms && s.nodes[v].term !in s.h.elected
    requires BallotsOk(ms, s) && ElectionsOk(ms, s.h) && VotesOk(s)
    requires Grows(s.h, Won(s, v, next, matched).h)
    requires LastTerm(s.nodes[v].log) < s.nodes[v].term && Good(s.h.leaderLog, s.nodes[v].log)
    requires forall w | w in s.nodes[v].votes :: Ballot(s.nodes[v].term, w, v) in s.h.ballots
    ensures VotesOk(Won(s, v, next, matched))
  {
    assert v in s.nodes;
    hide Good, MsgsOk, Carries, Quorum;
    var s' := Won(s, v, next, matched);
    forall b | b in s'.h.ballots && b.term !in s'.h.elected ensures Carries(s', b.term, b.voter, b.cand) {
      WinCarries(ms, s, v, next, matched, b.term, b.voter, b.cand);
    }
    forall u, w | u in s'.h.elected && w in s'.h.elected[u].voters ensures Carries(s', u, w, s'.h.elected[u].leader) {
      if u == s.nodes[v].term {
        assert Ballot(u, w, v) in s.h.ballots;
      } else {
        assert ElectionOk(ms, s.h, u, s.h.elected[u]);
      }
      WinCarries(ms, s, v, next, matched, u, w, s'.h.elected[u].leader);
    }
  }

  /** A candidate with a majority of votes becomes leader. */
  lemma Win(ms: set<NodeId>, s: View, v: NodeId, next: map<NodeId, nat>, matched: map<NodeId, nat>)
    requires Inv(ms, s) && v in ms && CanWin(ms, s, v, next, matched)
    ensures Inv(ms, Won(s, v, next, matched))
  {
    hide NodeOk, ElectionsOk, BallotsOk, MsgsOk, SlotsOk, Quorum, AcksOk, VotesOk, CommitOk, Good, Grows;
    WinsFreshTerm(ms, s, v, next, matched);
    WinBasic(ms, s, v, next, matched);
    WinnerFacts(ms, s, v, next, matched);
    WinAcks(ms, s, v, next, matched);
    WinVotes(ms, s, v, next, matched);
    CommitsGrow(ms, s, Won(s, v, next, matched));
  }
}
