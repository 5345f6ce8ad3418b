/**
 Leader Completeness (section 5.4 of the Raft paper) for careful runs.

 The argument needs only two records: how much of a leader's log a node has acknowledged
 in which term, and the log every voter had when it voted.  A node keeps what it has
 acknowledged until some later leader lacks it; so does, with its log, each voter.
 */
module LeaderCompleteness {
  import opened RaftLog
  import opened RaftSpec
  import opened Cluster
  import opened ElectionSafety
  import opened LogMatching

  // --- Ballots: what voters compared ---

  ghost predicate ElectedOk(h: History, term: int)
    requires term in h.elections && term in h.logs
  {
    var e, log := h.elections[term], h.logs[term];
    && 1 <= e.base <= |log| && log[e.base - 1].term < term
    && (forall k :: e.base <= k < |log| ==> log[k].term == term)
    && (forall v :: v in e.quorum ==>
          var key := VoteKey(v, term, e.leader);
          key in h.votes && h.votes[key].lastIndex == e.base - 1 && h.votes[key].lastTerm == log[e.base - 1].term)
  }

  /** What candidate n is known to have claimed: nothing but its present last entry. */
  predicate Claims(n: Node, lastIndex: int, lastTerm: int) {
    lastIndex == LastIndex(n.log) && lastTerm == LastTerm(n.log)
  }

  ghost predicate ClaimOk(s: Cluster, key: VoteKey)
    requires key in s.history.votes
  {
    var ballot := s.history.votes[key];
    && UpToDate(ballot.lastIndex, ballot.lastTerm, ballot.log)
    && (key.candidate in s.nodes && s.nodes[key.candidate].role == Candidate
        && s.nodes[key.candidate].currentTerm == key.term ==>
          Claims(s.nodes[key.candidate], ballot.lastIndex, ballot.lastTerm))
  }

  predicate AskOk(s: Cluster, p: Packet)
    requires p.VoteRequest?
  {
    p.src in s.nodes && s.nodes[p.src].role == Candidate && s.nodes[p.src].currentTerm == p.ask.term ==>
      Claims(s.nodes[p.src], p.ask.lastLogIndex, p.ask.lastLogTerm)
  }

  ghost predicate BallotInv(s: Cluster) {
    && (forall term {:trigger ElectedOk(s.history, term)} ::
          term in s.history.elections && term in s.history.logs ==> ElectedOk(s.history, term))
    && (forall key {:trigger ClaimOk(s, key)} :: key in s.history.votes ==> ClaimOk(s, key))
    && (forall p {:trigger AskOk(s, p)} :: p in s.net && p.VoteRequest? ==> AskOk(s, p))
  }

  // --- Acknowledgements ---

  /** The leader of the later term u does not have the first n entries of term t's leader. */
  ghost predicate Lacks(h: History, u: int, t: int, n: nat) {
    t in h.logs && u in h.logs && t < u && !Agree(h.logs[u], h.logs[t], n)
  }

  /** The log still holds the first n entries of term t's leader, unless a leader up to
      term bound lacks them. */
  ghost predicate Kept(h: History, log: seq<LogEntry>, bound: int, t: int, n: nat) {
    t in h.logs && (Agree(log, h.logs[t], n) || exists u :: u <= bound && Lacks(h, u, t, n))
  }

  ghost predicate KeptBefore(h: History, log: seq<LogEntry>, term: int, t: int, n: nat) {
    Kept(h, log, term - 1, t, n)
  }

  ghost predicate AckOk(s: Cluster, key: AckKey)
    requires key in s.history.acks
  {
    && key.node in s.nodes && key.term in s.history.logs
    && s.history.acks[key] <= |s.history.logs[key.term]|
    && key.term <= s.nodes[key.node].currentTerm
    && forall n: nat :: n <= s.history.acks[key] ==>
         Kept(s.history, s.nodes[key.node].log, s.nodes[key.node].currentTerm, key.term, n)
  }

  ghost predicate BallotKept(h: History, key: VoteKey)
    requires key in h.votes
  {
    Final(h, key.voter, key.term) ==>
      forall t, n: nat :: t < key.term && AckKey(key.voter, t) in h.acks && n <= h.acks[AckKey(key.voter, t)] ==>
        KeptBefore(h, h.votes[key].log, key.term, t, n)
  }

  /** A leader has acknowledged of its own log only what it has committed. */
  ghost predicate OwnAckOk(s: Cluster, i: int)
    requires i in s.nodes
  {
    var n := s.nodes[i];
    n.role == Leader && AckKey(i, n.currentTerm) in s.history.acks ==>
      s.history.acks[AckKey(i, n.currentTerm)] <= n.commitIndex + 1
  }

  ghost predicate AckInv(s: Cluster) {
    && (forall i {:trigger OwnAckOk(s, i)} :: i in s.nodes ==> OwnAckOk(s, i))
    && (forall key {:trigger AckOk(s, key)} :: key in s.history.acks ==> AckOk(s, key))
    && (forall key {:trigger BallotKept(s.history, key)} :: key in s.history.votes ==> BallotKept(s.history, key))
  }

  // --- Commitment ---

  ghost predicate Acked(h: History, node: int, term: int, n: nat) {
    AckKey(node, term) in h.acks && h.acks[AckKey(node, term)] >= n
  }

  ghost predicate CommitOk(s: Cluster, c: Commit) {
    && c.term in s.history.logs && 2 <= c.length <= |s.history.logs[c.term]|
    && s.history.logs[c.term][c.length - 1].term == c.term
    && IsQuorum(s, c.quorum)
    && forall v :: v in c.quorum ==> Acked(s.history, v, c.term, c.length)
  }

  ghost predicate SafeInv(s: Cluster) {
    ElectionInv(s) && LogInv(s) && BallotInv(s) && AckInv(s)
  }

  /** The election restriction at work.  The voter's log holds the first n entries of term
      t's leader, the last of them of term t; the candidate's first base entries end at
      least as late.  Then the candidate holds those n entries too, provided the leader of
      its last entry's term does. */
  lemma UpToDateHolds(h: History, log: seq<LogEntry>, base: nat, vlog: seq<LogEntry>, bound: int, t: int, n: nat)
    requires Traced(h, log) && Traced(h, vlog) && WellFormed(vlog, bound)
    requires t in h.logs && WellFormed(h.logs[t], t)
    requires 2 <= n <= |h.logs[t]| && h.logs[t][n - 1].term == t && Agree(vlog, h.logs[t], n)
    requires 1 <= base <= |log| && UpToDate(base - 1, log[base - 1].term, vlog)
    requires log[base - 1].term > t ==> var u := log[base - 1].term; u in h.logs ==> Agree(h.logs[u], h.logs[t], n)
    requires log[0].term == 0 && t >= 1
    ensures Agree(log, h.logs[t], n)
  {
    var mine, theirs := LastTerm(vlog), log[base - 1].term;
    assert vlog[n - 1].term == t <= mine;
    assert base >= 2;
    assert FromLeader(h, log, base - 1);
    if theirs == mine {
      assert FromLeader(h, vlog, |vlog| - 1);
    }
  }

  /** A leader elected from voters one of whom kept the committed entries has them too,
      provided every leader between does. */
  lemma ElectedHasKept(s: Cluster, c: Commit, term: int, v: int)
    requires LogInv(s) && BallotInv(s) && CommitOk(s, c) && term in s.history.logs && 1 <= c.term < term
    requires v in s.history.elections[term].quorum
    requires var key := VoteKey(v, term, s.history.elections[term].leader);
      key in s.history.votes && Agree(s.history.votes[key].log, s.history.logs[c.term], c.length)
    requires forall u :: u in s.history.logs && c.term < u < term ==>
               Agree(s.history.logs[u], s.history.logs[c.term], c.length)
    ensures Agree(s.history.logs[term], s.history.logs[c.term], c.length)
  {
    var h := s.history;
    var key := VoteKey(v, term, h.elections[term].leader);
    assert ElectedOk(h, term) && ClaimOk(s, key) && BallotOk(h, key);
    assert LeaderLogOk(h, term) && LeaderLogOk(h, c.term);
    UpToDateHolds(h, h.logs[term], h.elections[term].base, h.votes[key].log, term, c.term, c.length);
  }

  /** Leader Completeness on the records of one state: the log of every leader of a later
      term starts with what was committed. */
  lemma {:induction false} Completeness(s: Cluster, c: Commit, term: int)
    requires SafeInv(s) && CommitOk(s, c) && term in s.history.logs && c.term < term
    ensures Agree(s.history.logs[term], s.history.logs[c.term], c.length)
    decreases term
  {
    var h := s.history;
    assert ElectionOk(s, term) && ElectionOk(s, c.term);
    forall u | u in h.logs && c.term < u < term ensures Agree(h.logs[u], h.logs[c.term], c.length) {
      Completeness(s, c, u);
    }
    var v := QuorumsMeet(s, c.quorum, h.elections[term].quorum);
    var key := VoteKey(v, term, h.elections[term].leader);
    assert BallotKept(h, key) && Acked(h, v, c.term, c.length);
    assert KeptBefore(h, h.votes[key].log, term, c.term, c.length);
    ElectedHasKept(s, c, term, v);
  }

  // --- Ballots are preserved by every event ---

  lemma KeepBallots(s: Cluster, s': Cluster, i: int)
    requires ElectionInv(s) && BallotInv(s) && ChangesNode(s, s', i) && Grows(s.history, s'.history)
    requires forall term :: term in s'.history.elections && term in s'.history.logs ==>
      ElectedOk(s'.history, term) ||
      (term in s.history.elections && term in s.history.logs && s'.history.logs[term] == s.history.logs[term])
    requires forall key :: key in s'.history.votes ==> key in s.history.votes || ClaimOk(s', key)
    requires forall p :: p in s'.net && p.VoteRequest? ==> p in s.net || AskOk(s', p)
    requires var n, n' := s.nodes[i], s'.nodes[i];
      n'.role == Candidate ==>
        n'.currentTerm > n.currentTerm || (n.role == Candidate && n'.currentTerm == n.currentTerm && n'.log == n.log)
    ensures BallotInv(s')
  {
    forall term | term in s'.history.elections && term in s'.history.logs ensures ElectedOk(s'.history, term) {
      if term in s.history.elections && term in s.history.logs {
        assert ElectedOk(s.history, term);
      }
    }
    forall key | key in s'.history.votes ensures ClaimOk(s', key) {
      if key in s.history.votes {
        assert ClaimOk(s, key) && VoteOk(s, key);
      }
    }
    forall p | p in s'.net && p.VoteRequest? ensures AskOk(s', p) {
      if p in s.net {
        assert AskOk(s, p) && PacketOk(s, p);
      }
    }
  }

  lemma BallotTimeout(s: Cluster, i: int)
    requires ElectionInv(s) && BallotInv(s) && i in s.nodes
    ensures BallotInv(OnTimeout(s, i))
  {
    KeepBallots(s, OnTimeout(s, i), i);
  }

  lemma BallotVoteRequest(s: Cluster, p: Packet)
    requires ElectionInv(s) && BallotInv(s) && Arriving(s, p) && p.VoteRequest?
    ensures BallotInv(OnVoteRequest(s, p))
  {
    hide HandleRequestVote;
    var s', i := OnVoteRequest(s, p), p.dst;
    assert NodeOk(s, i) && PacketOk(s, p) && AskOk(s, p);
    RequestVoteEffect(s.nodes[i], p.ask);
    KeepBallots(s, s', i);
  }

  lemma BallotWin(s: Cluster, h': History, i: int, voter: int)
    requires ElectionInv(s) && LogInv(s) && BallotInv(s) && i in s.nodes && s.nodes[i].role == Candidate
    requires VoteKey(voter, s.nodes[i].currentTerm, i) in s.history.votes
    requires h' == RecordElection(s.history, s.nodes[i], voter)
    ensures ElectedOk(h', s.nodes[i].currentTerm)
  {
    var n := s.nodes[i];
    assert NodeOk(s, i) && NodeLogOk(s.history, n);
    forall v | v in n.votesReceived + {voter}
      ensures VoteKey(v, n.currentTerm, i) in h'.votes
      ensures Claims(n, h'.votes[VoteKey(v, n.currentTerm, i)].lastIndex,
                     h'.votes[VoteKey(v, n.currentTerm, i)].lastTerm)
    {
      assert ClaimOk(s, VoteKey(v, n.currentTerm, i));
    }
  }

  lemma BallotWon(s: Cluster, s': Cluster, i: int, voter: int)
    requires ElectionInv(s) && LogInv(s) && BallotInv(s) && ChangesNode(s, s', i)
    requires s.nodes[i].role == Candidate && s'.nodes[i].role == Leader && s'.net == s.net
    requires VoteKey(voter, s.nodes[i].currentTerm, i) in s.history.votes
    requires s'.history == RecordElection(s.history, s.nodes[i], voter)
    requires s.nodes[i].currentTerm !in s.history.elections
    ensures BallotInv(s')
  {
    hide ElectedOk, ClaimOk, AskOk;
    assert s.nodes[i].currentTerm !in s.history.logs;
    BallotWin(s, s'.history, i, voter);
    KeepBallots(s, s', i);
  }

  /** What counting a vote means for who stands and who leads. */
  lemma CountedVote(s: Cluster, p: Packet)
    requires ElectionInv(s) && Arriving(s, p) && p.VoteReply?
    ensures var n := s.nodes[p.dst]; var (n', won) := HandleVoteResponse(n, p.src, p.vote);
      && (won ==>
            && n.role == Candidate && n'.role == Leader
            && VoteKey(p.src, n.currentTerm, p.dst) in s.history.votes && n.currentTerm !in s.history.elections)
      && (n'.role == Candidate ==> n.role == Candidate && n'.currentTerm == n.currentTerm && n'.log == n.log)
  {
    hide HandleVoteResponse;
    assert NodeOk(s, p.dst) && PacketOk(s, p);
    VoteResponseEffect(s.nodes[p.dst], p.src, p.vote);
    KeepDeliverVoteReply(s, p);
  }

  lemma BallotVoteReply(s: Cluster, p: Packet)
    requires ElectionInv(s) && LogInv(s) && BallotInv(s) && Arriving(s, p) && p.VoteReply?
    ensures BallotInv(OnVoteReply(s, p))
  {
    hide HandleVoteResponse, RecordElection, ElectionInv, BallotInv, LogInv;
    var i := p.dst;
    CountedVote(s, p);
    var (n, won) := HandleVoteResponse(s.nodes[i], p.src, p.vote);
    if won {
      BallotWon(s, OnVoteReply(s, p), i, p.src);
    } else {
      BallotBecome(s, i, n);
    }
  }

  lemma GrownElectedOk(h: History, h': History, term: int, entry: LogEntry)
    requires term in h.elections && term in h.logs && ElectedOk(h, term)
    requires h'.elections == h.elections && h'.votes == h.votes
    requires h'.logs == h.logs[term := h.logs[term] + [entry]] && entry.term == term
    ensures ElectedOk(h', term)
  {
  }

  lemma BallotAppend(s: Cluster, i: int, command: string)
    requires ElectionInv(s) && LogInv(s) && BallotInv(s) && i in s.nodes
    ensures BallotInv(OnCommand(s, i, command))
  {
    hide ElectedOk, ClaimOk, AskOk;
    var s', n := OnCommand(s, i, command), s.nodes[i];
    assert NodeOk(s, i) && NodeLogOk(s.history, n);
    if n.role == Leader {
      GrownElectedOk(s.history, s'.history, n.currentTerm, LogEntry(n.currentTerm, command, |n.log|));
    }
    KeepBallots(s, s', i);
  }

  /** The node stands for election no more than before, and no vote, election or log is recorded. */
  lemma BallotQuiet(s: Cluster, s': Cluster, i: int)
    requires ElectionInv(s) && BallotInv(s) && ChangesNode(s, s', i)
    requires s'.history.elections == s.history.elections && s'.history.votes == s.history.votes
    requires s'.history.logs == s.history.logs
    requires forall p :: p in s'.net && p.VoteRequest? ==> p in s.net || AskOk(s', p)
    requires var n, n' := s.nodes[i], s'.nodes[i];
      n'.role == Candidate ==> n.role == Candidate && n'.currentTerm == n.currentTerm && n'.log == n.log
    ensures BallotInv(s')
  {
    KeepBallots(s, s', i);
  }

  lemma BallotDeliverAppend(s: Cluster, p: Packet)
    requires ElectionInv(s) && BallotInv(s) && Arriving(s, p) && p.AppendRequest?
    ensures BallotInv(OnAppend(s, p))
  {
    hide HandleAppendEntries;
    assert NodeOk(s, p.dst);
    AppendEntriesEffect(s.nodes[p.dst], p.args);
    BallotQuiet(s, OnAppend(s, p), p.dst);
  }

  lemma BallotAppendReply(s: Cluster, p: Packet)
    requires ElectionInv(s) && BallotInv(s) && Arriving(s, p) && p.AppendReply?
    ensures BallotInv(OnAppendReply(s, p))
  {
    hide HandleAppendEntriesResponse;
    assert NodeOk(s, p.dst);
    AppendResponseEffect(s.nodes[p.dst], p.src, p.reply);
    BallotQuiet(s, OnAppendReply(s, p), p.dst);
  }

  lemma BallotSend(s: Cluster, p: Packet)
    requires ElectionInv(s) && BallotInv(s) && p.src in s.nodes
    requires p.VoteRequest? ==> AskOk(s, p)
    ensures BallotInv(Send(s, p))
  {
    BallotQuiet(s, Send(s, p), p.src);
  }

  lemma BallotBecome(s: Cluster, i: int, n: Node)
    requires ElectionInv(s) && BallotInv(s) && i in s.nodes
    requires n.role == Candidate ==>
      s.nodes[i].role == Candidate && n.currentTerm == s.nodes[i].currentTerm && n.log == s.nodes[i].log
    ensures BallotInv(Become(s, i, n))
  {
    BallotQuiet(s, Become(s, i, n), i);
  }

  lemma StepKeepsBallots(s: Cluster, e: Event)
    requires ElectionInv(s) && LogInv(s) && BallotInv(s) && Enabled(s, e)
    ensures BallotInv(Step(s, e))
  {
    hide OnTimeout, OnVoteRequest, OnVoteReply, OnCommand, OnAppend, OnAppendReply;
    match e
    case Timeout(i) => BallotTimeout(s, i);
    case SendVoteRequest(i, to, term, lastIndex, lastTerm) =>
      BallotSend(s, VoteRequest(i, to, RequestVoteArgs(term, i, lastIndex, lastTerm)));
    case DeliverVoteRequest(p) => BallotVoteRequest(s, p);
    case DeliverVoteReply(p) => BallotVoteReply(s, p);
    case ClientAppend(i, command) => BallotAppend(s, i, command);
    case SendAppend(i, peer) =>
      BallotSend(s, AppendRequest(i, s.nodes[i].peers[peer], MakeAppendEntries(s.nodes[i], peer)));
    case DeliverAppend(p) => BallotDeliverAppend(s, p);
    case DeliverAppendReply(p) => BallotAppendReply(s, p);
    case Apply(i) => BallotBecome(s, i, ApplyCommitted(s.nodes[i]));
    case Save(i) => BallotBecome(s, i, Persist(s.nodes[i]));
    case Crash(i) => BallotBecome(s, i, Restart(s.nodes[i]));
    case CrashInVote(p) => BallotBecome(s, p.dst, Restart(StepDown(s.nodes[p.dst], p.ask.term)));
    case CrashInAppend(p) => BallotBecome(s, p.dst, Restart(MeetLeader(s.nodes[p.dst], p.args.term, p.args.leaderId)));
  }

  // --- Acknowledgements are preserved by every careful event ---

  /** A leader's log only ever grows by entries of its own term. */
  ghost predicate GrowOwn(h: History, h': History) {
    && LogsGrow(h, h')
    && (forall term :: term in h.logs ==> |h.logs[term]| >= 1)
    && forall term, k :: term in h.logs && |h.logs[term]| <= k < |h'.logs[term]| ==> h'.logs[term][k].term == term
  }

  lemma LacksGrows(h: History, h': History, u: int, t: int, n: nat)
    requires Lacks(h, u, t, n) && GrowOwn(h, h') && WellFormed(h.logs[t], t) && n <= |h.logs[t]|
    ensures Lacks(h', u, t, n)
  {
    var k := |h.logs[u]|;
    assert k < n && k < |h'.logs[u]| ==> h'.logs[u][k].term == u && h'.logs[t][k] == h.logs[t][k];
    if Agree(h'.logs[u], h'.logs[t], n) {
      assert false;
    }
  }

  lemma KeptGrows(h: History, h': History, log: seq<LogEntry>, bound: int, t: int, n: nat)
    requires Kept(h, log, bound, t, n) && GrowOwn(h, h') && WellFormed(h.logs[t], t) && n <= |h.logs[t]|
    ensures Kept(h', log, bound, t, n)
  {
    if !Agree(log, h.logs[t], n) {
      var u :| u <= bound && Lacks(h, u, t, n);
      LacksGrows(h, h', u, t, n);
    }
  }

  /** A node that keeps its log, or appends to it, keeps what it acknowledged. */
  lemma KeptByPrefix(h: History, log: seq<LogEntry>, bound: int, log': seq<LogEntry>, bound': int, t: int, n: nat)
    requires Kept(h, log, bound, t, n) && Agree(log, log', |log|) && bound <= bound'
    ensures Kept(h, log', bound', t, n)
  {
    if !Agree(log, h.logs[t], n) {
      var u :| u <= bound && Lacks(h, u, t, n);
      assert u <= bound' && Lacks(h, u, t, n);
    }
  }

  /** A node that accepts a request keeps what it acknowledged in earlier terms, unless the
      request's own leader lacks it. */
  lemma KeptByMerge(h: History, log: seq<LogEntry>, bound: int, args: AppendRequestArgs, t: int, n: nat)
    requires Acceptable(h, log, args) && Kept(h, log, bound, t, n)
    requires t <= bound <= args.term
    ensures Kept(h, Merge(log, args.prevLogIndex + 1, args.entries), args.term, t, n)
  {
    MergeAccepted(h, log, args);
    if !Agree(log, h.logs[t], n) {
      var u :| u <= bound && Lacks(h, u, t, n);
      assert u <= args.term && Lacks(h, u, t, n);
    } else if t < args.term && !Agree(h.logs[args.term], h.logs[t], n) {
      assert Lacks(h, args.term, t, n);
    } else {
      assert Agree(log, h.logs[args.term], n);
    }
  }

  lemma AckOfOther(s: Cluster, s': Cluster, i: int, key: AckKey)
    requires LogInv(s) && AckInv(s) && ChangesNode(s, s', i) && GrowOwn(s.history, s'.history)
    requires key in s.history.acks && key.node != i
    requires key in s'.history.acks && s'.history.acks[key] == s.history.acks[key]
    ensures AckOk(s', key)
  {
    assert AckOk(s, key) && LeaderLogOk(s.history, key.term);
    var n := s.nodes[key.node];
    forall m: nat | m <= s'.history.acks[key] ensures Kept(s'.history, n.log, n.currentTerm, key.term, m) {
      KeptGrows(s.history, s'.history, n.log, n.currentTerm, key.term, m);
    }
  }

  lemma AckOfPrefix(s: Cluster, s': Cluster, i: int, key: AckKey)
    requires LogInv(s) && AckInv(s) && ChangesNode(s, s', i) && GrowOwn(s.history, s'.history)
    requires key in s.history.acks && key.node == i
    requires key in s'.history.acks && s'.history.acks[key] == s.history.acks[key]
    requires Agree(s.nodes[i].log, s'.nodes[i].log, |s.nodes[i].log|)
    requires s.nodes[i].currentTerm <= s'.nodes[i].currentTerm
    ensures AckOk(s', key)
  {
    assert AckOk(s, key) && LeaderLogOk(s.history, key.term);
    var n, n' := s.nodes[i], s'.nodes[i];
    forall m: nat | m <= s'.history.acks[key] ensures Kept(s'.history, n'.log, n'.currentTerm, key.term, m) {
      KeptByPrefix(s.history, n.log, n.currentTerm, n'.log, n'.currentTerm, key.term, m);
      KeptGrows(s.history, s'.history, n'.log, n'.currentTerm, key.term, m);
    }
  }

  lemma AckOfMerge(s: Cluster, s': Cluster, i: int, args: AppendRequestArgs, key: AckKey)
    requires LogInv(s) && AckInv(s) && ChangesNode(s, s', i) && s'.history.logs == s.history.logs
    requires key in s.history.acks && key.node == i
    requires key in s'.history.acks && s'.history.acks[key] == s.history.acks[key]
    requires Acceptable(s.history, s.nodes[i].log, args) && args.term >= s.nodes[i].currentTerm
    requires s'.nodes[i].log == Merge(s.nodes[i].log, args.prevLogIndex + 1, args.entries)
    requires s'.nodes[i].currentTerm == args.term
    ensures AckOk(s', key)
  {
    assert AckOk(s, key) && LeaderLogOk(s.history, key.term);
    var n, n' := s.nodes[i], s'.nodes[i];
    forall m: nat | m <= s'.history.acks[key] ensures Kept(s'.history, n'.log, n'.currentTerm, key.term, m) {
      KeptByMerge(s.history, n.log, n.currentTerm, args, key.term, m);
      StandsStill(s, s');
      KeptGrows(s.history, s'.history, n'.log, n'.currentTerm, key.term, m);
    }
  }

  /** A node that holds its leader's log up to some length may acknowledge that much. */
  lemma NewAckOk(s: Cluster, i: int, term: int)
    requires i in s.nodes && AckKey(i, term) in s.history.acks && term in s.history.logs
    requires s.nodes[i].currentTerm == term
    requires Agree(s.nodes[i].log, s.history.logs[term], s.history.acks[AckKey(i, term)])
    ensures AckOk(s, AckKey(i, term))
  {
  }

  /** A ballot stays good when the only acknowledgements added are of its term or later. */
  lemma KeepOldBallot(s: Cluster, s': Cluster, key: VoteKey)
    requires LogInv(s) && AckInv(s) && GrowOwn(s.history, s'.history) && Grows(s.history, s'.history)
    requires key in s.history.votes
    requires forall t :: t < key.term && AckKey(key.voter, t) in s'.history.acks ==>
      AckKey(key.voter, t) in s.history.acks
      && s'.history.acks[AckKey(key.voter, t)] == s.history.acks[AckKey(key.voter, t)]
    ensures BallotKept(s'.history, key)
  {
    var h, h' := s.history, s'.history;
    assert BallotKept(h, key);
    if Final(h', key.voter, key.term) {
      assert Final(h, key.voter, key.term);
      forall t, n: nat | t < key.term && AckKey(key.voter, t) in h'.acks && n <= h'.acks[AckKey(key.voter, t)]
        ensures KeptBefore(h', h'.votes[key].log, key.term, t, n)
      {
        assert AckOk(s, AckKey(key.voter, t)) && LeaderLogOk(h, t);
        assert KeptBefore(h, h.votes[key].log, key.term, t, n);
        KeptGrows(h, h', h.votes[key].log, key.term - 1, t, n);
      }
    }
  }

  /** A new ballot is good: what its voter acknowledged it still has or some leader lacks,
      and a leader of the ballot's own term would make the vote void. */
  lemma NewBallotKept(s: Cluster, s': Cluster, i: int, key: VoteKey)
    requires ElectionInv(s) && ElectionInv(s') && LogInv(s) && AckInv(s) && i in s.nodes
    requires s'.history.acks == s.history.acks && s'.history.logs == s.history.logs
    requires s'.history.elections == s.history.elections
    requires key.voter == i && key !in s.history.votes && key.term >= s.nodes[i].currentTerm
    requires s'.history.votes.Keys == s.history.votes.Keys + {key} && s'.history.votes[key].log == s.nodes[i].log
    ensures BallotKept(s'.history, key)
  {
    var h, h', n := s.history, s'.history, s.nodes[i];
    if Final(h', i, key.term) {
      assert key.term in h.elections ==> ElectionOk(s, key.term);
      assert key.term !in h.elections;
      forall t, m: nat | t < key.term && AckKey(i, t) in h'.acks && m <= h'.acks[AckKey(i, t)]
        ensures KeptBefore(h', h'.votes[key].log, key.term, t, m)
      {
        assert AckOk(s, AckKey(i, t));
        assert Kept(h, n.log, n.currentTerm, t, m);
        if !Agree(n.log, h.logs[t], m) {
          var u :| u <= n.currentTerm && Lacks(h, u, t, m);
          assert u != key.term;
          assert u <= key.term - 1 && Lacks(h', u, t, m);
        }
      }
    }
  }

  /** Everything but the acknowledgements and ballots touched by node i's event. */
  lemma KeepAcks(s: Cluster, s': Cluster, i: int)
    requires ElectionInv(s) && LogInv(s) && AckInv(s) && ChangesNode(s, s', i)
    requires GrowOwn(s.history, s'.history) && Grows(s.history, s'.history)
    requires s.nodes[i].currentTerm <= s'.nodes[i].currentTerm
    requires forall key :: key in s'.history.acks ==>
      || (key in s.history.acks && s'.history.acks[key] == s.history.acks[key])
      || key == AckKey(i, s'.nodes[i].currentTerm)
    requires forall key :: key in s'.history.acks && key.node == i ==> AckOk(s', key)
    requires forall key :: key in s'.history.votes ==> key in s.history.votes || BallotKept(s'.history, key)
    requires OwnAckOk(s', i)
    ensures AckInv(s')
  {
    forall j | j in s'.nodes ensures OwnAckOk(s', j) {
      if j != i { assert OwnAckOk(s, j); }
    }
    forall key | key in s'.history.acks ensures AckOk(s', key) {
      if key.node != i { AckOfOther(s, s', i, key); }
    }
    forall key | key in s'.history.votes ensures BallotKept(s'.history, key) {
      if key in s.history.votes {
        assert VoteOk(s, key);
        KeepOldBallot(s, s', key);
      }
    }
  }

  /** The node keeps its log, or appends to it, and nothing is acknowledged. */
  lemma KeepAcksByPrefix(s: Cluster, s': Cluster, i: int)
    requires ElectionInv(s) && LogInv(s) && AckInv(s) && ChangesNode(s, s', i)
    requires GrowOwn(s.history, s'.history) && Grows(s.history, s'.history) && s'.history.acks == s.history.acks
    requires Agree(s.nodes[i].log, s'.nodes[i].log, |s.nodes[i].log|)
    requires s.nodes[i].currentTerm <= s'.nodes[i].currentTerm
    requires forall key :: key in s'.history.votes ==> key in s.history.votes || BallotKept(s'.history, key)
    requires LeadsOn(s, s.nodes[i], s'.nodes[i])
    ensures AckInv(s')
  {
    var mine := AckKey(i, s'.nodes[i].currentTerm);
    assert OwnAckOk(s, i) && (mine in s.history.acks ==> AckOk(s, mine));
    forall key | key in s'.history.acks && key.node == i ensures AckOk(s', key) {
      AckOfPrefix(s, s', i, key);
    }
    KeepAcks(s, s', i);
  }

  /** If the node leads now, it led this term before and has uncommitted nothing since, or no
      node leads the term yet. */
  ghost predicate LeadsOn(s: Cluster, n: Node, n': Node) {
    n'.role == Leader ==>
      || (n.role == Leader && n'.currentTerm == n.currentTerm && n'.commitIndex >= n.commitIndex)
      || n'.currentTerm !in s.history.elections
  }

  lemma StandsStill(s: Cluster, s': Cluster)
    requires LogInv(s) && s'.history.logs == s.history.logs
    ensures GrowOwn(s.history, s'.history)
  {
    forall term | term in s.history.logs ensures |s.history.logs[term]| >= 1 {
      assert LeaderLogOk(s.history, term);
    }
  }

  lemma AckBecome(s: Cluster, i: int, n: Node)
    requires ElectionInv(s) && LogInv(s) && AckInv(s) && i in s.nodes
    requires n.log == s.nodes[i].log && n.currentTerm >= s.nodes[i].currentTerm
    requires LeadsOn(s, s.nodes[i], n)
    ensures AckInv(Become(s, i, n))
  {
    StandsStill(s, Become(s, i, n));
    KeepAcksByPrefix(s, Become(s, i, n), i);
  }

  lemma AckSend(s: Cluster, p: Packet)
    requires ElectionInv(s) && LogInv(s) && AckInv(s) && p.src in s.nodes
    ensures AckInv(Send(s, p))
  {
    StandsStill(s, Send(s, p));
    KeepAcksByPrefix(s, Send(s, p), p.src);
  }

  lemma AckVote(s: Cluster, s': Cluster, i: int, key: VoteKey, ballot: Ballot)
    requires ElectionInv(s) && ElectionInv(s') && LogInv(s) && AckInv(s) && ChangesNode(s, s', i)
    requires s'.nodes[i].log == s.nodes[i].log && s'.nodes[i].currentTerm == key.term >= s.nodes[i].currentTerm
    requires s'.history == RecordVote(s.history, key, ballot)
    requires key.voter == i && ballot.log == s.nodes[i].log
    requires LeadsOn(s, s.nodes[i], s'.nodes[i])
    ensures AckInv(s')
  {
    StandsStill(s, s');
    if key !in s.history.votes {
      NewBallotKept(s, s', i, key);
    }
    KeepAcksByPrefix(s, s', i);
  }

  lemma AckTimeout(s: Cluster, i: int)
    requires ElectionInv(s) && LogInv(s) && AckInv(s) && i in s.nodes
    ensures AckInv(OnTimeout(s, i))
  {
    var s' := OnTimeout(s, i);
    KeepTimeout(s, i);
    var n := s'.nodes[i];
    AckVote(s, s', i, VoteKey(i, n.currentTerm, i), Ballot(n.log, LastIndex(n.log), LastTerm(n.log)));
  }

  lemma AckVoteRequest(s: Cluster, p: Packet)
    requires ElectionInv(s) && LogInv(s) && AckInv(s) && Arriving(s, p) && p.VoteRequest?
    ensures AckInv(OnVoteRequest(s, p))
  {
    hide HandleRequestVote;
    var s', i := OnVoteRequest(s, p), p.dst;
    assert NodeOk(s, i);
    RequestVoteEffect(s.nodes[i], p.ask);
    KeepDeliverVoteRequest(s, p);
    var (n, reply) := HandleRequestVote(s.nodes[i], p.ask);
    if reply.voteGranted {
      AckVote(s, s', i, VoteKey(i, reply.term, p.ask.candidateId),
              Ballot(n.log, p.ask.lastLogIndex, p.ask.lastLogTerm));
    } else {
      StandsStill(s, s');
      KeepAcksByPrefix(s, s', i);
    }
  }

  lemma AckVoteReply(s: Cluster, p: Packet)
    requires ElectionInv(s) && LogInv(s) && AckInv(s) && Arriving(s, p) && p.VoteReply?
    ensures AckInv(OnVoteReply(s, p))
  {
    hide HandleVoteResponse;
    var s', i := OnVoteReply(s, p), p.dst;
    assert NodeOk(s, i);
    VoteResponseEffect(s.nodes[i], p.src, p.vote);
    KeepDeliverVoteReply(s, p);
    ElectionGrows(s, p);
    WinGrowsOwn(s, p);
    KeepAcksByPrefix(s, s', i);
  }

  lemma WinGrowsOwn(s: Cluster, p: Packet)
    requires ElectionInv(s) && LogInv(s) && Arriving(s, p) && p.VoteReply?
    ensures GrowOwn(s.history, OnVoteReply(s, p).history)
  {
    hide HandleVoteResponse;
    var s' := OnVoteReply(s, p);
    LogElectionGrows(s, p);
    KeepDeliverVoteReply(s, p);
    StandsStill(s, s);
    var term := s.nodes[p.dst].currentTerm;
    assert forall t :: t in s.history.logs ==> s'.history.logs[t] == s.history.logs[t];
  }

  lemma AckAppendReply(s: Cluster, p: Packet)
    requires ElectionInv(s) && LogInv(s) && AckInv(s) && Arriving(s, p) && p.AppendReply?
    ensures AckInv(OnAppendReply(s, p))
  {
    hide HandleAppendEntriesResponse;
    var s', i := OnAppendReply(s, p), p.dst;
    assert NodeOk(s, i);
    AppendResponseEffect(s.nodes[i], p.src, p.reply);
    if s'.nodes[i].commitIndex > s.nodes[i].commitIndex {
      AckCommitted(s, s', i);
    } else {
      StandsStill(s, s');
      KeepAcksByPrefix(s, s', i);
    }
  }

  /** A leader acknowledges its own entries when it commits them. */
  lemma AckCommitted(s: Cluster, s': Cluster, i: int)
    requires ElectionInv(s) && LogInv(s) && AckInv(s) && ChangesNode(s, s', i)
    requires s.nodes[i].role == Leader && s'.nodes[i].log == s.nodes[i].log
    requires s'.nodes[i].id == i && s'.nodes[i].currentTerm == s.nodes[i].currentTerm
    requires s.nodes[i].commitIndex < s'.nodes[i].commitIndex < |s.nodes[i].log|
    requires s'.history == RecordCommit(s.history, s.nodes[i], s'.nodes[i])
    ensures AckInv(s')
  {
    var n := s.nodes[i];
    var mine := AckKey(i, n.currentTerm);
    StandsStill(s, s');
    assert NodeOk(s, i) && NodeLogOk(s.history, n) && OwnAckOk(s, i);
    NewAckOk(s', i, n.currentTerm);
    forall key | key in s'.history.acks && key.node == i ensures AckOk(s', key) {
      if key != mine { AckOfPrefix(s, s', i, key); }
    }
    KeepAcks(s, s', i);
  }

  // --- A crash ---

  /** Whatever a leader acknowledged in earlier terms was in its log when it was elected. */
  lemma OldAcksAreShort(h: History, log: seq<LogEntry>, term: int, t: int, n: nat)
    requires term in h.elections && term in h.logs && ElectedOk(h, term) && log == h.logs[term]
    requires t in h.logs && t < term && WellFormed(h.logs[t], t) && Agree(log, h.logs[t], n)
    ensures n <= h.elections[term].base
  {
    var base := h.elections[term].base;
    assert base < |log| ==> log[base].term == term;
  }

  /** What is kept of a leader's log after a crash holds what the leader acknowledged. */
  lemma CrashKeeps(s: Cluster, i: int, key: AckKey, n: nat)
    requires ElectionInv(s) && LogInv(s) && BallotInv(s) && AckInv(s) && i in s.nodes
    requires s.nodes[i].role == Leader && s.nodes[i].commitIndex < |s.nodes[i].disk.log|
    requires key in s.history.acks && key.node == i && n <= s.history.acks[key]
    ensures Kept(s.history, s.nodes[i].disk.log, s.nodes[i].currentTerm, key.term, n)
  {
    var h, m := s.history, s.nodes[i];
    assert NodeOk(s, i) && NodeLogOk(h, m) && OwnAckOk(s, i) && AckOk(s, key);
    assert Kept(h, m.log, m.currentTerm, key.term, n);
    if Agree(m.log, h.logs[key.term], n) {
      if key.term < m.currentTerm {
        assert ElectedOk(h, m.currentTerm) && LeaderLogOk(h, key.term);
        OldAcksAreShort(h, m.log, m.currentTerm, key.term, n);
      }
    }
  }

  lemma AckCrash(s: Cluster, i: int)
    requires ElectionInv(s) && LogInv(s) && BallotInv(s) && AckInv(s) && i in s.nodes
    requires s.nodes[i].role == Leader && s.nodes[i].commitIndex < |s.nodes[i].disk.log|
    ensures AckInv(Become(s, i, Restart(s.nodes[i])))
  {
    var s' := Become(s, i, Restart(s.nodes[i]));
    assert NodeOk(s, i);
    StandsStill(s, s');
    forall key | key in s'.history.acks && key.node == i ensures AckOk(s', key) {
      assert AckOk(s, key);
      forall n: nat | n <= s.history.acks[key]
        ensures Kept(s'.history, s'.nodes[i].log, s'.nodes[i].currentTerm, key.term, n)
      {
        CrashKeeps(s, i, key, n);
      }
    }
    KeepAcks(s, s', i);
  }

  lemma CommandGrowsOwn(s: Cluster, i: int, command: string)
    requires ElectionInv(s) && LogInv(s) && i in s.nodes
    ensures GrowOwn(s.history, OnCommand(s, i, command).history)
  {
    StandsStill(s, s);
    LogClientAppend(s, i, command);
    assert NodeOk(s, i) && NodeLogOk(s.history, s.nodes[i]);
  }

  lemma AckCommand(s: Cluster, i: int, command: string)
    requires ElectionInv(s) && LogInv(s) && AckInv(s) && i in s.nodes
    ensures AckInv(OnCommand(s, i, command))
  {
    CommandGrowsOwn(s, i, command);
    KeepAcksByPrefix(s, OnCommand(s, i, command), i);
  }

  lemma AcksOfAcceptor(s: Cluster, s': Cluster, i: int, args: AppendRequestArgs)
    requires LogInv(s) && AckInv(s) && ChangesNode(s, s', i)
    requires Acceptable(s.history, s.nodes[i].log, args) && args.term >= s.nodes[i].currentTerm
    requires s'.nodes[i].currentTerm == args.term
    requires s'.nodes[i].log == Merge(s.nodes[i].log, args.prevLogIndex + 1, args.entries)
    requires s'.history == RecordAck(s.history, AckKey(i, args.term), End(args))
    ensures forall key :: key in s'.history.acks && key.node == i ==> AckOk(s', key)
  {
    MergeAccepted(s.history, s.nodes[i].log, args);
    forall key | key in s'.history.acks && key.node == i ensures AckOk(s', key) {
      if key in s.history.acks && s'.history.acks[key] == s.history.acks[key] {
        AckOfMerge(s, s', i, args, key);
      } else {
        NewAckOk(s', i, args.term);
      }
    }
  }

  lemma AckAccept(s: Cluster, s': Cluster, i: int, args: AppendRequestArgs)
    requires ElectionInv(s) && LogInv(s) && AckInv(s) && ChangesNode(s, s', i)
    requires Acceptable(s.history, s.nodes[i].log, args) && args.term >= s.nodes[i].currentTerm
    requires s'.nodes[i].currentTerm == args.term
    requires s'.nodes[i].log == Merge(s.nodes[i].log, args.prevLogIndex + 1, args.entries)
    requires s'.history == RecordAck(s.history, AckKey(i, args.term), End(args)) && s'.nodes[i].role != Leader
    ensures AckInv(s')
  {
    AcksOfAcceptor(s, s', i, args);
    StandsStill(s, s');
    KeepAcks(s, s', i);
  }

  lemma MergeNothing(log: seq<LogEntry>, start: nat)
    requires start <= |log|
    ensures Merge(log, start, []) == log
  {
  }

  /** What becomes of the term and the log of a node that receives a request. */
  lemma DeliveredLog(s: Cluster, p: Packet)
    requires ElectionInv(s) && LogInv(s) && Arriving(s, p) && p.AppendRequest?
    ensures var n := s.nodes[p.dst]; var (n', reply) := HandleAppendEntries(n, p.args);
      && (reply.success && p.args.term >= 1 ==>
            && Acceptable(s.history, n.log, p.args) && n.currentTerm <= p.args.term == n'.currentTerm
            && n'.log == Merge(n.log, p.args.prevLogIndex + 1, p.args.entries))
      && (!reply.success || p.args.term < 1 ==> n'.log == n.log && n'.currentTerm >= n.currentTerm)
      && (p.args.term >= n.currentTerm ==> n'.role == Follower)
      && (p.args.term < n.currentTerm ==> n' == n && !reply.success)
  {
    hide HandleAppendEntries, Merge;
    var n := s.nodes[p.dst];
    assert NodeOk(s, p.dst) && NodeLogOk(s.history, n) && RequestOk(s.history, p.args);
    AppendEntriesEffect(n, p.args);
    AcceptedLog(n, p.args);
    if HandleAppendEntries(n, p.args).1.success {
      SuccessCarriesSlice(s.history, n, p.args);
      MergeNothing(n.log, p.args.prevLogIndex + 1);
      assert p.args.term >= 1 ==> LeaderLogOk(s.history, p.args.term);
    }
  }

  lemma AckDeliverAppend(s: Cluster, p: Packet)
    requires ElectionInv(s) && LogInv(s) && AckInv(s) && Arriving(s, p) && p.AppendRequest?
    ensures AckInv(OnAppend(s, p))
  {
    hide HandleAppendEntries, Merge, RecordAck, Acceptable, ElectionInv, AckInv;
    var s' := OnAppend(s, p);
    DeliveredLog(s, p);
    if HandleAppendEntries(s.nodes[p.dst], p.args).1.success && p.args.term >= 1 {
      AckAccept(s, s', p.dst, p.args);
    } else {
      StandsStill(s, s');
      KeepAcksByPrefix(s, s', p.dst);
    }
  }

  lemma StepKeepsAcks(s: Cluster, e: Event)
    requires ElectionInv(s) && LogInv(s) && BallotInv(s) && AckInv(s) && Enabled(s, e) && Careful(s, e)
    ensures AckInv(Step(s, e))
  {
    hide OnTimeout, OnVoteRequest, OnVoteReply, OnCommand, OnAppend, OnAppendReply, AckInv, Become;
    match e
    case Timeout(i) => AckTimeout(s, i);
    case SendVoteRequest(i, to, term, lastIndex, lastTerm) =>
      AckSend(s, VoteRequest(i, to, RequestVoteArgs(term, i, lastIndex, lastTerm)));
    case DeliverVoteRequest(p) => AckVoteRequest(s, p);
    case DeliverVoteReply(p) => AckVoteReply(s, p);
    case ClientAppend(i, command) => AckCommand(s, i, command);
    case SendAppend(i, peer) =>
      AckSend(s, AppendRequest(i, s.nodes[i].peers[peer], MakeAppendEntries(s.nodes[i], peer)));
    case DeliverAppend(p) => AckDeliverAppend(s, p);
    case DeliverAppendReply(p) => AckAppendReply(s, p);
    case Apply(i) => AckBecome(s, i, ApplyCommitted(s.nodes[i]));
    case Save(i) => AckBecome(s, i, Persist(s.nodes[i]));
    case Crash(i) =>
      assert NodeOk(s, i);
      if s.nodes[i].role == Leader { AckCrash(s, i); } else { AckBecome(s, i, Restart(s.nodes[i])); }
    case CrashInVote(p) => AckBecome(s, p.dst, Restart(StepDown(s.nodes[p.dst], p.ask.term)));
    case CrashInAppend(p) => AckBecome(s, p.dst, Restart(MeetLeader(s.nodes[p.dst], p.args.term, p.args.leaderId)));
  }
}
