/**
 Election Safety (section 5.2 of the Raft paper) on the fully asynchronous network with
 crashes: a term has at most one leader.

 A stepping-down candidate forgets its vote without leaving its term
 (src/raft/raft_node.cpp:147-152), so votes are not final in this program.  They are
 final where it counts: for voters of a term that has no leader yet, and for the voters
 that elected the leader of a term.
 */
module ElectionSafety {
  import opened RaftLog
  import opened RaftSpec
  import opened Cluster

  predicate IsQuorum(s: Cluster, q: set<int>) {
    q <= s.nodes.Keys && |q| >= |s.nodes| / 2 + 1
  }

  lemma QuorumsMeet(s: Cluster, a: set<int>, b: set<int>) returns (v: int)
    requires IsQuorum(s, a) && IsQuorum(s, b)
    ensures v in a && v in b
  {
    if forall x :: x in a ==> x !in b {
      assert a !! b;
      assert |a + b| == |a| + |b|;
      SubsetSize(a + b, s.nodes.Keys);
      assert false;
    }
    v :| v in a && v in b;
  }

  lemma SubsetSize(a: set<int>, b: set<int>)
    requires a <= b
    ensures |a| <= |b|
  {
    assert b == a + (b - a);
    assert |a + (b - a)| == |a| + |b - a|;
  }

  // --- The invariant ---

  /** The vote of this voter in this term is final. */
  predicate Final(h: History, voter: int, term: int) {
    term in h.elections ==> voter in h.elections[term].quorum
  }

  ghost predicate PeersOk(ids: set<int>, i: int, peers: seq<int>) {
    Distinct(peers) && (set q | q in peers) == ids - {i}
  }

  /** What is on disk is the node's term and vote, and a prefix of its log; only a leader's
      log may be ahead of its disk. */
  predicate DiskOk(n: Node) {
    && n.disk.term == n.currentTerm && n.disk.vote == n.votedFor && Agree(n.disk.log, n.log, |n.disk.log|)
    && (n.role != Leader ==> n.disk.log == n.log)
  }

  ghost predicate NodeOk(s: Cluster, i: int)
    requires i in s.nodes
  {
    var n := s.nodes[i];
    && n.id == i && i >= 0 && n.currentTerm >= 0
    && PeersOk(s.nodes.Keys, i, n.peers)
    && DiskOk(n)
    && (n.role == Candidate ==>
          && n.electionTerm == n.currentTerm >= 1 && n.votedFor == i
          && n.votesReceived <= s.nodes.Keys
          && forall v :: v in n.votesReceived ==> VoteKey(v, n.currentTerm, i) in s.history.votes)
    && (n.role == Leader ==>
          && n.votedFor == i && n.currentTerm >= 1
          && n.currentTerm in s.history.elections && s.history.elections[n.currentTerm].leader == i
          && s.history.elections[n.currentTerm].base <= |n.disk.log|)
  }

  ghost predicate VoteOk(s: Cluster, key: VoteKey) {
    && key.voter in s.nodes && key.candidate in s.nodes
    && 1 <= key.term <= s.nodes[key.voter].currentTerm && key.term <= s.nodes[key.candidate].currentTerm
    && (s.nodes[key.voter].currentTerm == key.term && Final(s.history, key.voter, key.term) ==>
          && s.nodes[key.voter].votedFor == key.candidate
          && (key.voter == key.candidate || s.nodes[key.voter].role == Follower))
  }

  ghost predicate OneVote(h: History) {
    forall voter, term, c, d ::
      VoteKey(voter, term, c) in h.votes && VoteKey(voter, term, d) in h.votes && Final(h, voter, term) ==> c == d
  }

  ghost predicate ElectionOk(s: Cluster, term: int)
    requires term in s.history.elections
  {
    var e := s.history.elections[term];
    && term >= 1 && e.leader in s.nodes
    && IsQuorum(s, e.quorum)
    && (forall v :: v in e.quorum ==> VoteKey(v, term, e.leader) in s.history.votes)
    && s.nodes[e.leader].currentTerm >= term
    && (s.nodes[e.leader].currentTerm == term ==> s.nodes[e.leader].role != Candidate)
  }

  ghost predicate PacketOk(s: Cluster, p: Packet) {
    && p.src in s.nodes && p.dst in s.nodes && p.src != p.dst
    && match p
       case VoteRequest(src, dst, ask) => ask.candidateId == src && 1 <= ask.term <= s.nodes[src].currentTerm
       case VoteReply(src, dst, vote) => vote.voteGranted ==> VoteKey(src, vote.term, dst) in s.history.votes
       case AppendRequest(src, dst, args) =>
         args.term == 0 || (args.term in s.history.elections && s.history.elections[args.term].leader == src)
       case AppendReply(_, _, _, _) => true
  }

  ghost predicate ElectionInv(s: Cluster) {
    && |s.nodes| >= 2
    && (forall i {:trigger NodeOk(s, i)} :: i in s.nodes ==> NodeOk(s, i))
    && (forall key {:trigger VoteOk(s, key)} :: key in s.history.votes ==> VoteOk(s, key))
    && OneVote(s.history)
    && (forall term {:trigger ElectionOk(s, term)} :: term in s.history.elections ==> ElectionOk(s, term))
    && (forall p {:trigger PacketOk(s, p)} :: p in s.net ==> PacketOk(s, p))
  }

  lemma InitElectionInv(s: Cluster)
    requires Init(s)
    ensures ElectionInv(s)
  {
  }

  // --- Preservation ---

  /** Records are only ever added. */
  ghost predicate Grows(h: History, h': History) {
    && (forall term :: term in h.elections ==> term in h'.elections && h'.elections[term] == h.elections[term])
    && (forall key :: key in h.votes ==> key in h'.votes && h'.votes[key] == h.votes[key])
  }

  /** Only node i changed, and within a term it neither changed a final vote nor stood again. */
  ghost predicate Moves(s: Cluster, s': Cluster, i: int) {
    && i in s.nodes && s'.nodes.Keys == s.nodes.Keys
    && (forall j :: j in s.nodes && j != i ==> s'.nodes[j] == s.nodes[j])
    && var n, n' := s.nodes[i], s'.nodes[i];
    && n'.currentTerm >= n.currentTerm
    && (n'.currentTerm == n.currentTerm ==>
          && (n.votedFor != -1 && Final(s.history, i, n.currentTerm) ==> n'.votedFor == n.votedFor)
          && (n.role == Follower ==> n'.role == Follower)
          && (n.role == Leader ==> n'.role != Candidate))
  }

  lemma KeepOldVote(s: Cluster, s': Cluster, i: int, key: VoteKey)
    requires ElectionInv(s) && Moves(s, s', i) && Grows(s.history, s'.history)
    requires key in s.history.votes
    ensures VoteOk(s', key)
  {
    assert VoteOk(s, key);
    assert NodeOk(s, key.candidate);
  }

  lemma KeepOldElection(s: Cluster, s': Cluster, i: int, term: int)
    requires ElectionInv(s) && Moves(s, s', i) && Grows(s.history, s'.history)
    requires term in s.history.elections
    ensures ElectionOk(s', term)
  {
    assert ElectionOk(s, term);
  }

  lemma KeepOtherNode(s: Cluster, s': Cluster, i: int, j: int)
    requires ElectionInv(s) && Moves(s, s', i) && Grows(s.history, s'.history)
    requires j in s.nodes && j != i
    ensures NodeOk(s', j)
  {
    assert NodeOk(s, j);
  }

  lemma KeepOldPacket(s: Cluster, s': Cluster, i: int, p: Packet)
    requires ElectionInv(s) && Moves(s, s', i) && Grows(s.history, s'.history)
    requires p in s.net
    ensures PacketOk(s', p)
  {
    assert PacketOk(s, p);
  }

  lemma Keep(s: Cluster, s': Cluster, i: int)
    requires ElectionInv(s) && Moves(s, s', i) && Grows(s.history, s'.history)
    requires NodeOk(s', i)
    requires OneVote(s'.history)
    requires forall key :: key in s'.history.votes ==> key in s.history.votes || VoteOk(s', key)
    requires forall term :: term in s'.history.elections ==> term in s.history.elections || ElectionOk(s', term)
    requires forall p :: p in s'.net ==> p in s.net || PacketOk(s', p)
    ensures ElectionInv(s')
  {
    SameSize(s, s');
    forall j | j in s'.nodes ensures NodeOk(s', j) {
      if j != i { KeepOtherNode(s, s', i, j); }
    }
    forall key | key in s'.history.votes ensures VoteOk(s', key) {
      if key in s.history.votes { KeepOldVote(s, s', i, key); }
    }
    forall term | term in s'.history.elections ensures ElectionOk(s', term) {
      if term in s.history.elections { KeepOldElection(s, s', i, term); }
    }
    forall p | p in s'.net ensures PacketOk(s', p) {
      if p in s.net { KeepOldPacket(s, s', i, p); }
    }
  }

  lemma SameSize(s: Cluster, s': Cluster)
    requires s'.nodes.Keys == s.nodes.Keys
    ensures |s'.nodes| == |s.nodes|
  {
    assert |s.nodes.Keys| == |s.nodes| && |s'.nodes.Keys| == |s'.nodes|;
  }

  lemma OneVoteSurvives(h: History, h': History)
    requires OneVote(h) && Grows(h, h') && h'.votes == h.votes
    ensures OneVote(h')
  {
    forall voter, term, c, d |
      VoteKey(voter, term, c) in h'.votes && VoteKey(voter, term, d) in h'.votes && Final(h', voter, term)
      ensures c == d
    {
      assert Final(h, voter, term);
    }
  }

  /** A vote just cast by node i for its present term: it cannot clash with an earlier final vote. */
  lemma OneVoteCast(s: Cluster, s': Cluster, i: int, key: VoteKey)
    requires ElectionInv(s) && Moves(s, s', i)
    requires key.voter == i && key.term == s'.nodes[i].currentTerm && key.candidate >= 0
    requires s'.history.elections == s.history.elections
    requires s'.history.votes.Keys == s.history.votes.Keys + {key}
    requires s'.nodes[i].votedFor == key.candidate
    ensures OneVote(s'.history)
  {
    var h, h' := s.history, s'.history;
    forall voter, term, c, d |
      VoteKey(voter, term, c) in h'.votes && VoteKey(voter, term, d) in h'.votes && Final(h', voter, term)
      ensures c == d
    {
      assert Final(h, voter, term);
      if VoteKey(voter, term, c) in h.votes && VoteKey(voter, term, c) != key {
        assert VoteOk(s, VoteKey(voter, term, c)) && NodeOk(s, c);
      }
      if VoteKey(voter, term, d) in h.votes && VoteKey(voter, term, d) != key {
        assert VoteOk(s, VoteKey(voter, term, d)) && NodeOk(s, d);
      }
    }
  }

  lemma KeepTimeout(s: Cluster, i: int)
    requires ElectionInv(s) && i in s.nodes
    ensures ElectionInv(OnTimeout(s, i))
  {
    var s' := OnTimeout(s, i);
    assert NodeOk(s, i);
    var key := VoteKey(i, s'.nodes[i].currentTerm, i);
    OneVoteCast(s, s', i, key);
    Keep(s, s', i);
  }

  lemma KeepSend(s: Cluster, p: Packet)
    requires ElectionInv(s) && PacketOk(s, p)
    ensures ElectionInv(Send(s, p))
  {
    var s' := Send(s, p);
    assert NodeOk(s, p.src);
    assert NodeOk(s', p.src);
    Keep(s, s', p.src);
  }

  /** What a node sends, in the two kinds of request it makes. */
  lemma SentPacketOk(s: Cluster, i: int, to: int, term: int, lastIndex: int, lastTerm: int, peer: nat)
    requires ElectionInv(s) && i in s.nodes
    ensures to in s.nodes[i].peers && 1 <= term <= s.nodes[i].currentTerm ==>
      PacketOk(s, VoteRequest(i, to, RequestVoteArgs(term, i, lastIndex, lastTerm)))
    ensures peer < |s.nodes[i].peers| ==>
      PacketOk(s, AppendRequest(i, s.nodes[i].peers[peer], MakeAppendEntries(s.nodes[i], peer)))
  {
    assert NodeOk(s, i);
    PeersAreOthers(s.nodes.Keys, i, s.nodes[i].peers);
  }

  lemma PeersAreOthers(ids: set<int>, i: int, peers: seq<int>)
    requires PeersOk(ids, i, peers)
    ensures forall q :: q in peers ==> q in ids && q != i
  {
    forall q | q in peers ensures q in ids && q != i {
      var others := set x | x in peers;
      assert q in others && others == ids - {i};
    }
  }

  predicate SameProgress(n: Node, n': Node) {
    n'.commitIndex == n.commitIndex && n'.lastApplied == n.lastApplied && n'.applied == n.applied
  }

  /** What answering a vote request does to the parts of a node that elections depend on. */
  lemma RequestVoteEffect(n: Node, args: RequestVoteArgs)
    requires DiskOk(n)
    ensures var (n', reply) := HandleRequestVote(n, args);
      && n'.id == n.id && n'.peers == n.peers && n'.log == n.log && DiskOk(n') && |n'.disk.log| >= |n.disk.log|
      && n'.currentTerm >= n.currentTerm && reply.term == n'.currentTerm
      && SameProgress(n, n') && n'.matchIndex == n.matchIndex
      && (n'.currentTerm == n.currentTerm ==>
            && n'.role == n.role && n'.votesReceived == n.votesReceived && n'.electionTerm == n.electionTerm
            && (n.votedFor != -1 ==> n'.votedFor == n.votedFor))
      && (n'.currentTerm > n.currentTerm ==> n'.role == Follower)
      && (reply.voteGranted ==>
            && n'.votedFor == args.candidateId && n'.currentTerm == args.term
            && UpToDate(args.lastLogIndex, args.lastLogTerm, n.log))
  {
  }

  /** The voter, the vote and the reply after a vote is granted. */
  lemma GrantedVoteOk(s: Cluster, s': Cluster, p: Packet, n: Node, reply: RequestVoteReply)
    requires ElectionInv(s) && Arriving(s, p) && p.VoteRequest?
    requires (n, reply) == HandleRequestVote(s.nodes[p.dst], p.ask) && reply.voteGranted
    requires s'.nodes == s.nodes[p.dst := n] && s'.net == s.net + {VoteReply(p.dst, p.src, reply)}
    requires s'.history.elections == s.history.elections
    requires s'.history.votes.Keys == s.history.votes.Keys + {VoteKey(p.dst, reply.term, p.ask.candidateId)}
    requires Grows(s.history, s'.history)
    ensures Moves(s, s', p.dst) && NodeOk(s', p.dst) && PacketOk(s', VoteReply(p.dst, p.src, reply))
    ensures VoteOk(s', VoteKey(p.dst, reply.term, p.ask.candidateId)) && OneVote(s'.history)
  {
    hide HandleRequestVote, OneVote, ElectionOk, UpToDate;
    var i, key := p.dst, VoteKey(p.dst, reply.term, p.ask.candidateId);
    assert NodeOk(s, i) && PacketOk(s, p) && NodeOk(s, p.src);
    RequestVoteEffect(s.nodes[i], p.ask);
    OneVoteCast(s, s', i, key);
  }

  lemma KeepGrantedVote(s: Cluster, s': Cluster, p: Packet, n: Node, reply: RequestVoteReply)
    requires ElectionInv(s) && Arriving(s, p) && p.VoteRequest?
    requires (n, reply) == HandleRequestVote(s.nodes[p.dst], p.ask) && reply.voteGranted
    requires s'.nodes == s.nodes[p.dst := n] && s'.net == s.net + {VoteReply(p.dst, p.src, reply)}
    requires s'.history.elections == s.history.elections
    requires s'.history.votes.Keys == s.history.votes.Keys + {VoteKey(p.dst, reply.term, p.ask.candidateId)}
    requires Grows(s.history, s'.history)
    ensures ElectionInv(s')
  {
    hide HandleRequestVote, ElectionInv, Moves, OneVote, NodeOk, VoteOk, ElectionOk, PacketOk, Grows;
    GrantedVoteOk(s, s', p, n, reply);
    Keep(s, s', p.dst);
  }

  lemma KeepRefusedVote(s: Cluster, s': Cluster, p: Packet, n: Node, reply: RequestVoteReply)
    requires ElectionInv(s) && Arriving(s, p) && p.VoteRequest?
    requires (n, reply) == HandleRequestVote(s.nodes[p.dst], p.ask) && !reply.voteGranted
    requires s'.nodes == s.nodes[p.dst := n] && s'.net == s.net + {VoteReply(p.dst, p.src, reply)}
    requires s'.history == s.history
    ensures ElectionInv(s')
  {
    hide HandleRequestVote, OneVote, VoteOk, ElectionOk;
    assert NodeOk(s, p.dst) && PacketOk(s, p);
    RequestVoteEffect(s.nodes[p.dst], p.ask);
    assert NodeOk(s', p.dst);
    Keep(s, s', p.dst);
  }

  lemma KeepDeliverVoteRequest(s: Cluster, p: Packet)
    requires ElectionInv(s) && Arriving(s, p) && p.VoteRequest?
    ensures ElectionInv(OnVoteRequest(s, p))
  {
    hide HandleRequestVote;
    var (n, reply) := HandleRequestVote(s.nodes[p.dst], p.ask);
    if reply.voteGranted {
      KeepGrantedVote(s, OnVoteRequest(s, p), p, n, reply);
    } else {
      KeepRefusedVote(s, OnVoteRequest(s, p), p, n, reply);
    }
  }

  lemma VoteResponseEffect(n: Node, voter: int, reply: RequestVoteReply)
    requires DiskOk(n)
    ensures var (n', won) := HandleVoteResponse(n, voter, reply);
      && n'.id == n.id && n'.peers == n.peers && n'.log == n.log && DiskOk(n') && |n'.disk.log| >= |n.disk.log|
      && n'.currentTerm >= n.currentTerm
      && (n'.currentTerm == n.currentTerm ==> n'.votedFor == n.votedFor)
      && (n'.currentTerm > n.currentTerm ==> n'.role == Follower)
      && (won ==>
            && n.role == Candidate && n'.role == Leader && n'.currentTerm == n.currentTerm
            && n.electionTerm <= reply.term <= n.currentTerm && reply.voteGranted
            && |n.votesReceived + {voter}| >= Majority(n))
      && SameProgress(n, n')
      && (if won then forall p :: 0 <= p < |n'.matchIndex| ==> n'.matchIndex[p] == 0 else n'.matchIndex == n.matchIndex)
      && (!won && n'.currentTerm == n.currentTerm ==>
            && n'.role == n.role && n'.electionTerm == n.electionTerm
            && (n'.votesReceived == n.votesReceived ||
                (n'.votesReceived == n.votesReceived + {voter} && reply.voteGranted && n.role == Candidate
                 && n.electionTerm <= reply.term <= n.currentTerm)))
  {
  }

  lemma MajorityOfPeers(s: Cluster, i: int)
    requires i in s.nodes && NodeOk(s, i)
    ensures Majority(s.nodes[i]) == |s.nodes| / 2 + 1
  {
    var n := s.nodes[i];
    DistinctSize(n.peers);
    assert |s.nodes.Keys - {i}| == |s.nodes.Keys| - 1;
  }

  lemma {:induction false} DistinctSize(q: seq<int>)
    requires Distinct(q)
    ensures |set x | x in q| == |q|
  {
    if q != [] {
      var front, last := q[..|q| - 1], q[|q| - 1];
      DistinctSize(front);
      assert q == front + [last];
      assert (set x | x in q) == (set x | x in front) + {last};
      assert last !in front;
    }
  }

  /** The heart of Election Safety: a candidate that collects a majority finds no leader in its term. */
  lemma WinnerIsFirst(s: Cluster, i: int, votes: set<int>)
    requires ElectionInv(s) && i in s.nodes && s.nodes[i].role == Candidate
    requires IsQuorum(s, votes)
    requires forall v :: v in votes ==> VoteKey(v, s.nodes[i].currentTerm, i) in s.history.votes
    ensures s.nodes[i].currentTerm !in s.history.elections
  {
    var term := s.nodes[i].currentTerm;
    if term in s.history.elections {
      var e := s.history.elections[term];
      assert ElectionOk(s, term);
      var v := QuorumsMeet(s, votes, e.quorum);
      assert Final(s.history, v, term);
      assert false;
    }
  }

  lemma WinnerElectionOk(s: Cluster, s': Cluster, i: int, voter: int)
    requires ElectionInv(s) && i in s.nodes && voter in s.nodes && s.nodes[i].role == Candidate
    requires VoteKey(voter, s.nodes[i].currentTerm, i) in s.history.votes
    requires |s.nodes[i].votesReceived + {voter}| >= Majority(s.nodes[i])
    requires s'.nodes.Keys == s.nodes.Keys && s'.history == RecordElection(s.history, s.nodes[i], voter)
    requires s'.nodes[i].currentTerm == s.nodes[i].currentTerm && s'.nodes[i].role == Leader
    ensures s.nodes[i].currentTerm !in s.history.elections
    ensures ElectionOk(s', s.nodes[i].currentTerm)
  {
    assert NodeOk(s, i);
    var votes := s.nodes[i].votesReceived + {voter};
    MajorityOfPeers(s, i);
    WinnerIsFirst(s, i, votes);
    SameSize(s, s');
  }

  /** The winner and its election. */
  lemma WonElectionOk(s: Cluster, s': Cluster, p: Packet, n: Node)
    requires ElectionInv(s) && Arriving(s, p) && p.VoteReply?
    requires (n, true) == HandleVoteResponse(s.nodes[p.dst], p.src, p.vote)
    requires s'.nodes == s.nodes[p.dst := n] && s'.net == s.net
    requires s'.history == RecordElection(s.history, s.nodes[p.dst], p.src)
    ensures Moves(s, s', p.dst) && NodeOk(s', p.dst) && s.nodes[p.dst].currentTerm !in s.history.elections
    ensures ElectionOk(s', s.nodes[p.dst].currentTerm)
  {
    hide HandleVoteResponse, PeersOk, Final, OneVote, VoteOk, ElectionOk;
    var i := p.dst;
    assert NodeOk(s, i) && PacketOk(s, p);
    VoteResponseEffect(s.nodes[i], p.src, p.vote);
    WinnerElectionOk(s, s', i, p.src);
  }

  lemma KeepWin(s: Cluster, s': Cluster, p: Packet, n: Node)
    requires ElectionInv(s) && Arriving(s, p) && p.VoteReply?
    requires (n, true) == HandleVoteResponse(s.nodes[p.dst], p.src, p.vote)
    requires s'.nodes == s.nodes[p.dst := n] && s'.net == s.net
    requires s'.history == RecordElection(s.history, s.nodes[p.dst], p.src)
    ensures ElectionInv(s') && s.nodes[p.dst].currentTerm !in s.history.elections
  {
    hide HandleVoteResponse, Moves, OneVote, NodeOk, VoteOk, ElectionOk, PacketOk;
    WonElectionOk(s, s', p, n);
    OneVoteSurvives(s.history, s'.history);
    Keep(s, s', p.dst);
  }

  lemma KeepNoWin(s: Cluster, s': Cluster, p: Packet, n: Node)
    requires ElectionInv(s) && Arriving(s, p) && p.VoteReply?
    requires (n, false) == HandleVoteResponse(s.nodes[p.dst], p.src, p.vote)
    requires s' == Become(s, p.dst, n)
    ensures ElectionInv(s')
  {
    hide HandleVoteResponse, OneVote, VoteOk, ElectionOk;
    assert NodeOk(s, p.dst) && PacketOk(s, p);
    VoteResponseEffect(s.nodes[p.dst], p.src, p.vote);
    assert NodeOk(s', p.dst);
    Keep(s, s', p.dst);
  }

  lemma KeepDeliverVoteReply(s: Cluster, p: Packet)
    requires ElectionInv(s) && Arriving(s, p) && p.VoteReply?
    ensures ElectionInv(OnVoteReply(s, p))
    ensures HandleVoteResponse(s.nodes[p.dst], p.src, p.vote).1 ==> s.nodes[p.dst].currentTerm !in s.history.elections
  {
    hide HandleVoteResponse;
    var (n, won) := HandleVoteResponse(s.nodes[p.dst], p.src, p.vote);
    if won {
      KeepWin(s, OnVoteReply(s, p), p, n);
    } else {
      KeepNoWin(s, OnVoteReply(s, p), p, n);
    }
  }

  lemma CommitToFrame(n: Node, leaderCommit: int)
    ensures var n' := CommitTo(n, leaderCommit);
      n' == n.(commitIndex := n'.commitIndex, lastApplied := n'.lastApplied, applied := n'.applied)
  {
  }

  lemma StoreFrame(n: Node, prev: nat, entries: seq<LogEntry>)
    requires prev < |n.log| && DiskOk(n)
    ensures var n' := Store(n, prev, entries); n' == n.(log := n'.log, disk := n'.disk) && DiskOk(n')
    ensures Store(n, prev, entries).log == Merge(n.log, prev + 1, entries)
  {
  }

  lemma AppendEntriesEffect(n: Node, args: AppendRequestArgs)
    requires DiskOk(n)
    ensures var (n', reply) := HandleAppendEntries(n, args);
      && n'.id == n.id && n'.peers == n.peers && DiskOk(n')
      && n'.currentTerm == (if args.term < n.currentTerm then n.currentTerm else args.term)
      && (args.term < n.currentTerm ==> n' == n && !reply.success)
      && (args.term >= n.currentTerm ==> n'.role == Follower && (n.role == Follower ==> n'.votedFor == n.votedFor))
  {
    if args.term >= n.currentTerm {
      var m := MeetLeader(n, args.term, args.leaderId);
      if Matches(m.log, args.prevLogIndex, args.prevLogTerm) {
        StoreFrame(m, args.prevLogIndex, args.entries);
        CommitToFrame(Store(m, args.prevLogIndex, args.entries), args.leaderCommit);
      }
    }
  }

  /** An AppendEntries request of the node's own term never reaches a voter whose vote
      is final while it is still a candidate or leader. */
  lemma FinalVotersFollow(s: Cluster, p: Packet)
    requires ElectionInv(s) && Arriving(s, p) && p.AppendRequest?
    requires p.args.term == s.nodes[p.dst].currentTerm && Final(s.history, p.dst, p.args.term)
    ensures s.nodes[p.dst].role == Follower
  {
    assert NodeOk(s, p.dst) && PacketOk(s, p);
    if p.args.term != 0 {
      assert ElectionOk(s, p.args.term);
      assert VoteOk(s, VoteKey(p.dst, p.args.term, p.src));
    }
  }

  lemma AckChangesNoVote(h: History, key: AckKey, length: nat)
    ensures var h' := RecordAck(h, key, length); h'.elections == h.elections && h'.votes == h.votes && h'.logs == h.logs
  {
  }

  lemma AppendMoves(s: Cluster, p: Packet)
    requires ElectionInv(s) && Arriving(s, p) && p.AppendRequest?
    ensures Moves(s, OnAppend(s, p), p.dst)
  {
    hide HandleAppendEntries, RecordAck;
    assert NodeOk(s, p.dst) && PacketOk(s, p);
    AppendEntriesEffect(s.nodes[p.dst], p.args);
    if p.args.term == s.nodes[p.dst].currentTerm && Final(s.history, p.dst, p.args.term) {
      FinalVotersFollow(s, p);
    }
  }

  lemma KeepDeliverAppend(s: Cluster, p: Packet)
    requires ElectionInv(s) && Arriving(s, p) && p.AppendRequest?
    ensures ElectionInv(OnAppend(s, p))
  {
    hide HandleAppendEntries, RecordAck, Moves, OneVote, VoteOk, ElectionOk;
    var s', i := OnAppend(s, p), p.dst;
    assert NodeOk(s, i) && PacketOk(s, p);
    AppendEntriesEffect(s.nodes[i], p.args);
    AppendMoves(s, p);
    AckChangesNoVote(s.history, AckKey(i, p.args.term), p.args.prevLogIndex + |p.args.entries| + 1);
    OneVoteSurvives(s.history, s'.history);
    assert NodeOk(s', i);
    Keep(s, s', i);
  }

  lemma AppendResponseEffect(n: Node, follower: int, reply: AppendEntriesReply)
    requires DiskOk(n)
    ensures var (n', _) := HandleAppendEntriesResponse(n, follower, reply);
      && n'.id == n.id && n'.peers == n.peers && n'.log == n.log && DiskOk(n') && |n'.disk.log| >= |n.disk.log|
      && n'.currentTerm >= n.currentTerm
      && n'.lastApplied == n.lastApplied && n'.applied == n.applied && n'.commitIndex >= n.commitIndex
      && (n'.commitIndex > n.commitIndex ==>
            n.role == Leader && n'.role == Leader && n'.currentTerm == n.currentTerm && n'.commitIndex < |n.log|)
      && (n'.currentTerm > n.currentTerm ==> n'.role == Follower)
      && (n'.currentTerm == n.currentTerm ==>
            && n'.role == n.role && n'.votedFor == n.votedFor
            && n'.electionTerm == n.electionTerm && n'.votesReceived == n.votesReceived)
  {
  }

  lemma KeepDeliverAppendReply(s: Cluster, p: Packet)
    requires ElectionInv(s) && Arriving(s, p) && p.AppendReply?
    ensures ElectionInv(OnAppendReply(s, p))
  {
    hide DiskOk, PacketOk, HandleAppendEntriesResponse, OneVote, VoteOk, ElectionOk;
    var s', i := OnAppendReply(s, p), p.dst;
    assert NodeOk(s, i);
    AppendResponseEffect(s.nodes[i], p.src, p.reply);
    OneVoteSurvives(s.history, s'.history);
    assert NodeOk(s', i);
    Keep(s, s', i);
  }

  /** Events at one node that change neither its term nor its vote, and let it lead or stand no more than before. */
  lemma KeepLocal(s: Cluster, s': Cluster, i: int, n: Node)
    requires ElectionInv(s) && i in s.nodes
    requires s'.nodes == s.nodes[i := n] && s'.net == s.net
    requires s'.history.elections == s.history.elections && s'.history.votes == s.history.votes
    requires n.id == s.nodes[i].id && n.peers == s.nodes[i].peers
    requires n.currentTerm == s.nodes[i].currentTerm && n.votedFor == s.nodes[i].votedFor && DiskOk(n)
    requires n.role == Follower ||
      (n.role == s.nodes[i].role && n.votesReceived == s.nodes[i].votesReceived
       && n.electionTerm == s.nodes[i].electionTerm && |n.disk.log| >= |s.nodes[i].disk.log|)
    ensures ElectionInv(s')
  {
    assert NodeOk(s, i);
    OneVoteSurvives(s.history, s'.history);
    assert NodeOk(s', i);
    Keep(s, s', i);
  }

  lemma KeepCrashInVote(s: Cluster, p: Packet)
    requires ElectionInv(s) && Arriving(s, p) && p.VoteRequest? && p.ask.term > s.nodes[p.dst].currentTerm
    ensures ElectionInv(Become(s, p.dst, Restart(StepDown(s.nodes[p.dst], p.ask.term))))
  {
    var s', i := Become(s, p.dst, Restart(StepDown(s.nodes[p.dst], p.ask.term))), p.dst;
    assert NodeOk(s, i);
    assert NodeOk(s', i);
    Keep(s, s', i);
  }

  lemma KeepCrashInAppend(s: Cluster, p: Packet)
    requires ElectionInv(s) && Arriving(s, p) && p.AppendRequest? && p.args.term >= s.nodes[p.dst].currentTerm
    ensures ElectionInv(Become(s, p.dst, Restart(MeetLeader(s.nodes[p.dst], p.args.term, p.args.leaderId))))
  {
    var s', i := Become(s, p.dst, Restart(MeetLeader(s.nodes[p.dst], p.args.term, p.args.leaderId))), p.dst;
    assert NodeOk(s, i);
    if p.args.term == s.nodes[i].currentTerm && Final(s.history, i, p.args.term) {
      FinalVotersFollow(s, p);
    }
    assert NodeOk(s', i);
    Keep(s, s', i);
  }

  lemma KeepCommand(s: Cluster, i: int, command: string)
    requires ElectionInv(s) && i in s.nodes
    ensures ElectionInv(OnCommand(s, i, command))
  {
    assert NodeOk(s, i);
    KeepLocal(s, OnCommand(s, i, command), i, OnCommand(s, i, command).nodes[i]);
  }

  lemma KeepQuiet(s: Cluster, i: int)
    requires ElectionInv(s) && i in s.nodes
    ensures ElectionInv(Become(s, i, ApplyCommitted(s.nodes[i])))
    ensures ElectionInv(Become(s, i, Persist(s.nodes[i])))
    ensures ElectionInv(Become(s, i, Restart(s.nodes[i])))
  {
    assert NodeOk(s, i);
    KeepLocal(s, Become(s, i, ApplyCommitted(s.nodes[i])), i, ApplyCommitted(s.nodes[i]));
    KeepLocal(s, Become(s, i, Persist(s.nodes[i])), i, Persist(s.nodes[i]));
    KeepLocal(s, Become(s, i, Restart(s.nodes[i])), i, Restart(s.nodes[i]));
  }

  lemma StepKeepsElectionInv(s: Cluster, e: Event)
    requires ElectionInv(s) && Enabled(s, e)
    ensures ElectionInv(Step(s, e))
  {
    hide OnTimeout, OnVoteRequest, OnVoteReply, OnCommand, OnAppend, OnAppendReply, Restart, StepDown, MeetLeader,
         Persist, ApplyCommitted, MakeAppendEntries, ElectionInv, PacketOk, Become;
    match e
    case Timeout(i) => KeepTimeout(s, i);
    case SendVoteRequest(i, to, term, lastIndex, lastTerm) =>
      SentPacketOk(s, i, to, term, lastIndex, lastTerm, 0);
      KeepSend(s, VoteRequest(i, to, RequestVoteArgs(term, i, lastIndex, lastTerm)));
    case DeliverVoteRequest(p) => KeepDeliverVoteRequest(s, p);
    case DeliverVoteReply(p) => KeepDeliverVoteReply(s, p);
    case ClientAppend(i, command) => KeepCommand(s, i, command);
    case SendAppend(i, peer) =>
      SentPacketOk(s, i, i, 0, 0, 0, peer);
      KeepSend(s, AppendRequest(i, s.nodes[i].peers[peer], MakeAppendEntries(s.nodes[i], peer)));
    case DeliverAppend(p) => KeepDeliverAppend(s, p);
    case DeliverAppendReply(p) => KeepDeliverAppendReply(s, p);
    case Apply(i) => KeepQuiet(s, i);
    case Save(i) => KeepQuiet(s, i);
    case Crash(i) => KeepQuiet(s, i);
    case CrashInVote(p) => KeepCrashInVote(s, p);
    case CrashInAppend(p) => KeepCrashInAppend(s, p);
  }

  lemma ElectionGrows(s: Cluster, p: Packet)
    requires ElectionInv(s) && Arriving(s, p) && p.VoteReply?
    ensures Grows(s.history, OnVoteReply(s, p).history)
  {
    KeepDeliverVoteReply(s, p);
    assert NodeOk(s, p.dst);
    VoteResponseEffect(s.nodes[p.dst], p.src, p.vote);
  }

  lemma RecordVoteGrows(h: History, key: VoteKey, ballot: Ballot)
    ensures Grows(h, RecordVote(h, key, ballot))
  {
  }

  lemma VoteRequestGrows(s: Cluster, p: Packet)
    requires Arriving(s, p) && p.VoteRequest?
    ensures Grows(s.history, OnVoteRequest(s, p).history)
  {
    var (n, reply) := HandleRequestVote(s.nodes[p.dst], p.ask);
    RecordVoteGrows(s.history, VoteKey(p.dst, reply.term, p.ask.candidateId),
                    Ballot(n.log, p.ask.lastLogIndex, p.ask.lastLogTerm));
  }

  lemma CommitChangesNoVote(h: History, before: Node, after: Node)
    ensures var h' := RecordCommit(h, before, after);
      h'.elections == h.elections && h'.votes == h.votes && h'.logs == h.logs
  {
  }

  lemma AppendGrows(s: Cluster, p: Packet)
    requires Arriving(s, p) && p.AppendRequest?
    ensures OnAppend(s, p).history.votes == s.history.votes && OnAppend(s, p).history.elections == s.history.elections
  {
    hide HandleAppendEntries, RecordAck;
    AckChangesNoVote(s.history, AckKey(p.dst, p.args.term), p.args.prevLogIndex + |p.args.entries| + 1);
  }

  lemma AppendReplyGrows(s: Cluster, p: Packet)
    requires Arriving(s, p) && p.AppendReply?
    ensures OnAppendReply(s, p).history.votes == s.history.votes
    ensures OnAppendReply(s, p).history.elections == s.history.elections
  {
    hide HandleAppendEntriesResponse, RecordCommit;
    CommitChangesNoVote(s.history, s.nodes[p.dst], OnAppendReply(s, p).nodes[p.dst]);
  }

  lemma OthersGrow(s: Cluster, e: Event)
    requires Enabled(s, e) && !e.Timeout? && !e.DeliverVoteRequest? && !e.DeliverVoteReply?
    ensures Step(s, e).history.votes == s.history.votes && Step(s, e).history.elections == s.history.elections
  {
    hide OnAppend, OnAppendReply, StartElection, ApplyCommitted, AppendCommand, MakeAppendEntries, Persist, Restart;
    match e
    case DeliverAppend(p) => AppendGrows(s, p);
    case DeliverAppendReply(p) => AppendReplyGrows(s, p);
    case _ =>
  }

  lemma StepGrows(s: Cluster, e: Event)
    requires ElectionInv(s) && Enabled(s, e)
    ensures Grows(s.history, Step(s, e).history)
  {
    hide HandleRequestVote, HandleVoteResponse, HandleAppendEntries, HandleAppendEntriesResponse;
    match e
    case Timeout(i) => RecordVoteGrows(s.history, VoteKey(i, OnTimeout(s, i).nodes[i].currentTerm, i),
                                       Ballot(s.nodes[i].log, LastIndex(s.nodes[i].log), LastTerm(s.nodes[i].log)));
    case DeliverVoteRequest(p) => VoteRequestGrows(s, p);
    case DeliverVoteReply(p) => ElectionGrows(s, p);
    case _ => OthersGrow(s, e);
  }

  // --- Runs ---

  lemma {:induction false} RunElectionInv(states: seq<Cluster>, events: seq<Event>, k: nat)
    requires IsRun(states, events) && k < |states|
    ensures ElectionInv(states[k])
  {
    hide Step, ElectionInv;
    if k == 0 {
      InitElectionInv(states[0]);
    } else {
      RunElectionInv(states, events, k - 1);
      assert StepAt(states, events, k - 1);
      StepKeepsElectionInv(states[k - 1], events[k - 1]);
    }
  }

  lemma {:induction false} RunGrows(states: seq<Cluster>, events: seq<Event>, a: nat, b: nat)
    requires IsRun(states, events) && a <= b < |states|
    ensures Grows(states[a].history, states[b].history)
    decreases b
  {
    hide Step, ElectionInv;
    if a < b {
      RunGrows(states, events, a, b - 1);
      RunElectionInv(states, events, b - 1);
      assert StepAt(states, events, b - 1);
      StepGrows(states[b - 1], events[b - 1]);
    }
  }
}
