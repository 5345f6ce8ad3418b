/**
 Log Matching (section 5.3 of the Raft paper) by provenance, on the fully asynchronous
 network with crashes that lose a leader's unsaved suffix: every entry anywhere, with
 everything before it, comes from the log of the one leader of its term.
 */
module LogMatching {
  import opened RaftLog
  import opened RaftSpec
  import opened Cluster
  import opened ElectionSafety

  /** Entry k, with all before it, is in the recorded log of the leader of its term. */
  ghost predicate FromLeader(h: History, log: seq<LogEntry>, k: nat)
    requires k < |log|
  {
    log[k].term in h.logs && Agree(log, h.logs[log[k].term], k + 1)
  }

  ghost predicate Traced(h: History, log: seq<LogEntry>) {
    forall k :: 1 <= k < |log| ==> FromLeader(h, log, k)
  }

  ghost predicate LeaderLogOk(h: History, term: int)
    requires term in h.logs
  {
    WellFormed(h.logs[term], term) && Traced(h, h.logs[term])
  }

  ghost predicate NodeLogOk(h: History, n: Node) {
    && WellFormed(n.log, n.currentTerm) && Traced(h, n.log)
    && (n.role == Candidate ==> LastTerm(n.log) < n.currentTerm)
    && (n.role == Leader ==> n.currentTerm in h.logs && n.log == h.logs[n.currentTerm])
  }

  /** Position of the last entry a request speaks about, plus one. */
  function End(args: AppendRequestArgs): nat {
    args.prevLogIndex + |args.entries| + 1
  }

  /** The request carries a slice of the log of its term's leader and the term before it. */
  ghost predicate CarriesSlice(h: History, args: AppendRequestArgs) {
    && args.term in h.logs
    && End(args) <= |h.logs[args.term]|
    && args.entries == h.logs[args.term][args.prevLogIndex + 1..End(args)]
    && args.prevLogTerm == h.logs[args.term][args.prevLogIndex].term
  }

  /** Beyond the leader's log the request is empty and names term 0, which no entry has. */
  predicate PointsPastEnd(args: AppendRequestArgs) {
    args.prevLogIndex > 0 && args.prevLogTerm == 0 && args.entries == []
  }

  /** What a node sends that is no longer leader. */
  predicate IsBlank(args: AppendRequestArgs) {
    args == AppendEntriesArgs(0, 0, 0, 0, [], 0)
  }

  ghost predicate RequestOk(h: History, args: AppendRequestArgs) {
    IsBlank(args) || (args.term >= 1 && (CarriesSlice(h, args) || PointsPastEnd(args)))
  }

  ghost predicate BallotOk(h: History, key: VoteKey)
    requires key in h.votes
  {
    WellFormed(h.votes[key].log, key.term) && Traced(h, h.votes[key].log)
  }

  ghost predicate LogInv(s: Cluster) {
    && s.history.logs.Keys == s.history.elections.Keys
    && (forall term {:trigger LeaderLogOk(s.history, term)} :: term in s.history.logs ==> LeaderLogOk(s.history, term))
    && (forall i {:trigger NodeLogOk(s.history, s.nodes[i])} :: i in s.nodes ==> NodeLogOk(s.history, s.nodes[i]))
    && (forall key {:trigger BallotOk(s.history, key)} :: key in s.history.votes ==> BallotOk(s.history, key))
    && (forall p {:trigger RequestOk(s.history, p.args)} ::
          p in s.net && p.AppendRequest? ==> RequestOk(s.history, p.args))
  }

  // --- The core of Log Matching ---

  /** Equal terms at one position: equal logs up to that position. */
  lemma SameTermSamePrefix(h: History, a: seq<LogEntry>, b: seq<LogEntry>, k: nat)
    requires Traced(h, a) && Traced(h, b)
    requires 1 <= k < |a| && k < |b| && a[k].term == b[k].term
    ensures Agree(a, b, k + 1)
  {
    assert FromLeader(h, a, k) && FromLeader(h, b, k);
  }

  /** A request that a node with this log accepts. */
  ghost predicate Acceptable(h: History, log: seq<LogEntry>, args: AppendRequestArgs) {
    && Traced(h, log) && |log| >= 1 && log[0] == SENTINEL
    && CarriesSlice(h, args) && LeaderLogOk(h, args.term)
    && Matches(log, args.prevLogIndex, args.prevLogTerm)
  }

  /** Up to the first difference the log already holds the leader's entries. */
  lemma MergeAgreesBefore(h: History, log: seq<LogEntry>, args: AppendRequestArgs)
    requires Acceptable(h, log, args)
    ensures var d := FirstDifference(log, args.prevLogIndex + 1, args.entries);
      Agree(log, h.logs[args.term], args.prevLogIndex + 1 + d)
  {
    var leader, start := h.logs[args.term], args.prevLogIndex + 1;
    var d := FirstDifference(log, start, args.entries);
    AtDifference(log, start, args.entries);
    if d > 0 {
      assert args.entries[d - 1] == leader[start + (d - 1)];
      SameTermSamePrefix(h, log, leader, start + (d - 1));
    } else if args.prevLogIndex > 0 {
      SameTermSamePrefix(h, log, leader, args.prevLogIndex);
    }
  }

  /** A leader's entries know their positions, so numbering them again changes nothing. */
  lemma NumberedSlice(leader: seq<LogEntry>, from: nat, to: nat)
    requires 1 <= from <= to <= |leader|
    requires forall k :: from <= k < to ==> leader[k].index == k
    ensures Numbered(leader[from..to], from) == leader[from..to]
  {
    var slice := leader[from..to];
    forall i | 0 <= i < |slice| ensures Numbered(slice, from)[i] == slice[i] {
      assert slice[i] == leader[from + i];
    }
  }

  lemma MergeTakesLeaders(leader: seq<LogEntry>, log: seq<LogEntry>, start: nat, entries: seq<LogEntry>)
    requires forall k :: 1 <= k < |leader| ==> leader[k].index == k
    requires 1 <= start <= |log|
    requires start + |entries| <= |leader| && entries == leader[start..start + |entries|]
    requires var d := FirstDifference(log, start, entries); d < |entries| && Agree(log, leader, start + d)
    ensures Merge(log, start, entries) == leader[..start + |entries|]
  {
    hide FirstDifference, Numbered, Agree;
    TakesLeaders(leader, log, start, entries, FirstDifference(log, start, entries));
  }

  lemma TakesLeaders(leader: seq<LogEntry>, log: seq<LogEntry>, start: nat, entries: seq<LogEntry>, d: nat)
    requires forall k :: 1 <= k < |leader| ==> leader[k].index == k
    requires 1 <= start && d <= |entries| && start + |entries| <= |leader|
    requires entries == leader[start..start + |entries|] && Agree(log, leader, start + d)
    ensures log[..start + d] + Numbered(entries[d..], start + d) == leader[..start + |entries|]
  {
    SliceOfSlice(leader, start, start + d, start + |entries|);
    NumberedSlice(leader, start + d, start + |entries|);
    Rejoin(log, leader, start + d, start + |entries|);
  }

  lemma SliceOfSlice(s: seq<LogEntry>, start: nat, q: nat, end: nat)
    requires start <= q <= end <= |s|
    ensures s[start..end][q - start..] == s[q..end]
  {
  }

  lemma Rejoin(log: seq<LogEntry>, leader: seq<LogEntry>, q: nat, end: nat)
    requires Agree(log, leader, q) && q <= end <= |leader|
    ensures log[..q] + leader[q..end] == leader[..end]
  {
    assert log[..q] == leader[..q];
  }

  /** Two logs share nothing beyond the place where their terms differ. */
  lemma SharedEndsAtDifference(log: seq<LogEntry>, leader: seq<LogEntry>, q: nat, n: nat)
    requires q < |leader| && (q >= |log| || log[q].term != leader[q].term)
    requires Agree(log, leader, n)
    ensures n <= q
  {
  }

  lemma MergeReplaces(h: History, log: seq<LogEntry>, args: AppendRequestArgs)
    requires Acceptable(h, log, args)
    requires FirstDifference(log, args.prevLogIndex + 1, args.entries) < |args.entries|
    ensures Merge(log, args.prevLogIndex + 1, args.entries) == h.logs[args.term][..End(args)]
  {
    MergeAgreesBefore(h, log, args);
    MergeTakesLeaders(h.logs[args.term], log, args.prevLogIndex + 1, args.entries);
  }

  lemma SharedIsShort(h: History, log: seq<LogEntry>, args: AppendRequestArgs, n: nat)
    requires Acceptable(h, log, args) && Agree(log, h.logs[args.term], n)
    requires FirstDifference(log, args.prevLogIndex + 1, args.entries) < |args.entries|
    ensures n <= End(args)
  {
    var leader, start := h.logs[args.term], args.prevLogIndex + 1;
    var d := FirstDifference(log, start, args.entries);
    AtDifference(log, start, args.entries);
    assert leader[start + d] == args.entries[d];
    SharedEndsAtDifference(log, leader, start + d, n);
  }

  /** Merging an accepted request into a traced log.  Either nothing changes or the log
      becomes the leader's up to the end of the request; either way it then holds that
      much of the leader's log, and nothing it shared with that log is lost. */
  lemma MergeAccepted(h: History, log: seq<LogEntry>, args: AppendRequestArgs)
    requires Acceptable(h, log, args)
    ensures var log', leader := Merge(log, args.prevLogIndex + 1, args.entries), h.logs[args.term];
      && Agree(log', leader, End(args))
      && (log' == log || log' == leader[..End(args)])
      && (forall n: nat :: Agree(log, leader, n) ==> Agree(log', leader, n))
  {
    if FirstDifference(log, args.prevLogIndex + 1, args.entries) < |args.entries| {
      MergeReplaces(h, log, args);
      forall n: nat | Agree(log, h.logs[args.term], n) ensures n <= End(args) {
        SharedIsShort(h, log, args, n);
      }
    } else {
      MergeAgreesBefore(h, log, args);
    }
  }

  // --- Preservation ---

  ghost predicate LogsGrow(h: History, h': History) {
    forall term :: term in h.logs ==>
      term in h'.logs && Agree(h.logs[term], h'.logs[term], |h.logs[term]|)
  }

  lemma TracedGrows(h: History, h': History, log: seq<LogEntry>)
    requires Traced(h, log) && LogsGrow(h, h')
    ensures Traced(h', log)
  {
    forall k | 1 <= k < |log| ensures FromLeader(h', log, k) {
      assert FromLeader(h, log, k);
    }
  }

  lemma RequestGrows(h: History, h': History, args: AppendRequestArgs)
    requires RequestOk(h, args) && LogsGrow(h, h')
    ensures RequestOk(h', args)
  {
    if CarriesSlice(h, args) {
      var was, now := h.logs[args.term], h'.logs[args.term];
      assert was[args.prevLogIndex + 1..End(args)] == now[args.prevLogIndex + 1..End(args)];
    }
  }

  /** Only node i and the records changed. */
  ghost predicate ChangesNode(s: Cluster, s': Cluster, i: int) {
    && i in s.nodes && s'.nodes.Keys == s.nodes.Keys
    && forall j :: j in s.nodes && j != i ==> s'.nodes[j] == s.nodes[j]
  }

  predicate SameLog(h: History, h': History, term: int) {
    term in h.logs && term in h'.logs && h'.logs[term] == h.logs[term]
  }

  lemma KeepLogs(s: Cluster, s': Cluster, i: int)
    requires LogInv(s) && ChangesNode(s, s', i)
    requires LogsGrow(s.history, s'.history) && s'.history.logs.Keys == s'.history.elections.Keys
    requires Grows(s.history, s'.history)
    requires NodeLogOk(s'.history, s'.nodes[i])
    requires forall j :: j in s.nodes && j != i && s.nodes[j].role == Leader ==>
      SameLog(s.history, s'.history, s.nodes[j].currentTerm)
    requires forall term :: term in s'.history.logs ==>
      LeaderLogOk(s'.history, term) || (term in s.history.logs && s'.history.logs[term] == s.history.logs[term])
    requires forall key :: key in s'.history.votes ==> key in s.history.votes || BallotOk(s'.history, key)
    requires forall p :: p in s'.net && p.AppendRequest? ==> p in s.net || RequestOk(s'.history, p.args)
    ensures LogInv(s')
  {
    var h, h' := s.history, s'.history;
    forall term | term in h'.logs ensures LeaderLogOk(h', term) {
      if !LeaderLogOk(h', term) {
        assert LeaderLogOk(h, term);
        TracedGrows(h, h', h.logs[term]);
      }
    }
    forall j | j in s'.nodes ensures NodeLogOk(h', s'.nodes[j]) {
      if j != i {
        assert NodeLogOk(h, s.nodes[j]);
        TracedGrows(h, h', s.nodes[j].log);
      }
    }
    forall key | key in h'.votes ensures BallotOk(h', key) {
      if key in h.votes {
        assert BallotOk(h, key);
        TracedGrows(h, h', h.votes[key].log);
      }
    }
    forall p | p in s'.net && p.AppendRequest? ensures RequestOk(h', p.args) {
      if p in s.net { RequestGrows(h, h', p.args); }
    }
  }

  lemma LeadersRecorded(s: Cluster, h': History)
    requires LogInv(s) && h'.logs == s.history.logs
    ensures forall j :: j in s.nodes && s.nodes[j].role == Leader ==> SameLog(s.history, h', s.nodes[j].currentTerm)
  {
    forall j | j in s.nodes && s.nodes[j].role == Leader ensures SameLog(s.history, h', s.nodes[j].currentTerm) {
      assert NodeLogOk(s.history, s.nodes[j]);
    }
  }

  /** Node i changes but keeps its log and leads no new term; leaders' logs stand still. */
  lemma KeepSameLog(s: Cluster, s': Cluster, i: int)
    requires LogInv(s) && ChangesNode(s, s', i)
    requires s'.history.logs == s.history.logs && s'.history.elections == s.history.elections
    requires Grows(s.history, s'.history)
    requires forall key :: key in s'.history.votes ==> key in s.history.votes || BallotOk(s'.history, key)
    requires forall p :: p in s'.net && p.AppendRequest? ==> p in s.net || RequestOk(s'.history, p.args)
    requires var n, n' := s.nodes[i], s'.nodes[i];
      && n'.log == n.log && n'.currentTerm >= n.currentTerm >= 0
      && (n'.role == Candidate ==> n'.currentTerm > n.currentTerm || n.role == Candidate)
      && (n'.role == Leader ==> n.role == Leader && n'.currentTerm == n.currentTerm)
    ensures LogInv(s')
  {
    assert NodeLogOk(s.history, s.nodes[i]);
    TracedGrows(s.history, s'.history, s.nodes[i].log);
    LeadersRecorded(s, s'.history);
    KeepLogs(s, s', i);
  }

  /** A vote is recorded with a log that traces to its leaders. */
  lemma CastBallotOk(h: History, n: Node, key: VoteKey, ballot: Ballot)
    requires NodeLogOk(h, n) && ballot.log == n.log && key.term >= n.currentTerm
    ensures key in h.votes || BallotOk(RecordVote(h, key, ballot), key)
  {
    TracedGrows(h, RecordVote(h, key, ballot), n.log);
  }

  lemma LogTimeout(s: Cluster, i: int)
    requires ElectionInv(s) && LogInv(s) && i in s.nodes
    ensures LogInv(OnTimeout(s, i))
  {
    hide BallotOk, LeaderLogOk, RequestOk;
    var s', n := OnTimeout(s, i), s.nodes[i];
    assert NodeOk(s, i) && NodeLogOk(s.history, n);
    CastBallotOk(s.history, n, VoteKey(i, n.currentTerm + 1, i), Ballot(n.log, LastIndex(n.log), LastTerm(n.log)));
    KeepSameLog(s, s', i);
  }

  lemma LogVoteRequest(s: Cluster, p: Packet)
    requires ElectionInv(s) && LogInv(s) && Arriving(s, p) && p.VoteRequest?
    ensures LogInv(OnVoteRequest(s, p))
  {
    hide UpToDate, HandleRequestVote, BallotOk, LeaderLogOk, RequestOk;
    var s', i, n := OnVoteRequest(s, p), p.dst, s.nodes[p.dst];
    assert NodeOk(s, i) && NodeLogOk(s.history, n);
    RequestVoteEffect(n, p.ask);
    CastBallotOk(s.history, n, VoteKey(i, HandleRequestVote(n, p.ask).1.term, p.ask.candidateId),
                 Ballot(n.log, p.ask.lastLogIndex, p.ask.lastLogTerm));
    KeepSameLog(s, s', i);
  }

  /** A record that changes no log but the one of its own term leaves other leaders alone. */
  lemma OtherLeadersKeep(s: Cluster, h': History, i: int, term: int, log: seq<LogEntry>)
    requires ElectionInv(s) && LogInv(s) && i in s.nodes && h'.logs == s.history.logs[term := log]
    requires s.nodes[i].currentTerm == term && (term in s.history.elections ==> s.history.elections[term].leader == i)
    ensures forall j :: j in s.nodes && j != i && s.nodes[j].role == Leader ==>
      SameLog(s.history, h', s.nodes[j].currentTerm)
  {
    forall j | j in s.nodes && j != i && s.nodes[j].role == Leader
      ensures SameLog(s.history, h', s.nodes[j].currentTerm)
    {
      assert NodeOk(s, j) && NodeLogOk(s.history, s.nodes[j]);
    }
  }

  /** Node i, leading term, now has the given log, and it is on record. */
  lemma KeepLeading(s: Cluster, s': Cluster, i: int, n: Node)
    requires ElectionInv(s) && LogInv(s) && i in s.nodes
    requires s'.nodes == s.nodes[i := n] && s'.net == s.net
    requires s'.history.logs == s.history.logs[n.currentTerm := n.log] && s'.history.votes == s.history.votes
    requires LogsGrow(s.history, s'.history) && Grows(s.history, s'.history)
    requires s'.history.logs.Keys == s'.history.elections.Keys
    requires n.role == Leader && n.currentTerm == s.nodes[i].currentTerm
    requires n.currentTerm in s.history.elections ==> s.history.elections[n.currentTerm].leader == i
    requires WellFormed(n.log, n.currentTerm) && Traced(s'.history, n.log)
    ensures LogInv(s')
  {
    OtherLeadersKeep(s, s'.history, i, n.currentTerm, n.log);
    assert LeaderLogOk(s'.history, n.currentTerm);
    KeepLogs(s, s', i);
  }

  lemma LogWin(s: Cluster, s': Cluster, i: int, voter: int, n: Node)
    requires ElectionInv(s) && LogInv(s) && i in s.nodes && s.nodes[i].role == Candidate
    requires s.nodes[i].currentTerm !in s.history.elections
    requires n.log == s.nodes[i].log && n.currentTerm == s.nodes[i].currentTerm && n.role == Leader
    requires s'.nodes == s.nodes[i := n] && s'.net == s.net
    requires s'.history == RecordElection(s.history, s.nodes[i], voter)
    ensures LogInv(s') && LogsGrow(s.history, s'.history)
  {
    assert NodeLogOk(s.history, s.nodes[i]);
    assert n.currentTerm !in s.history.logs;
    TracedGrows(s.history, s'.history, n.log);
    KeepLeading(s, s', i, n);
  }

  lemma LogVoteReply(s: Cluster, p: Packet)
    requires ElectionInv(s) && LogInv(s) && Arriving(s, p) && p.VoteReply?
    ensures LogInv(OnVoteReply(s, p))
  {
    hide HandleVoteResponse;
    var s', i := OnVoteReply(s, p), p.dst;
    assert NodeOk(s, i);
    VoteResponseEffect(s.nodes[i], p.src, p.vote);
    KeepDeliverVoteReply(s, p);
    var (n, won) := HandleVoteResponse(s.nodes[i], p.src, p.vote);
    if won {
      LogWin(s, s', i, p.src, n);
    } else {
      KeepSameLog(s, s', i);
    }
  }

  lemma ExtendTraced(h: History, log: seq<LogEntry>, bound: int, entry: LogEntry)
    requires WellFormed(log, bound) && Traced(h, log)
    requires bound >= 1 && entry.term == bound && entry.index == |log|
    requires bound in h.logs && h.logs[bound] == log + [entry]
    ensures WellFormed(log + [entry], bound) && Traced(h, log + [entry])
  {
    forall k | 1 <= k < |log + [entry]| ensures FromLeader(h, log + [entry], k) {
      if k < |log| { assert FromLeader(h, log, k); }
    }
  }

  lemma LogAppended(s: Cluster, s': Cluster, i: int, entry: LogEntry, n: Node)
    requires ElectionInv(s) && LogInv(s) && i in s.nodes && s.nodes[i].role == Leader
    requires n == s.nodes[i].(log := s.nodes[i].log + [entry])
    requires entry.term == n.currentTerm && entry.index == |s.nodes[i].log|
    requires s'.nodes == s.nodes[i := n] && s'.net == s.net
    requires s'.history == RecordAppend(s.history, n)
    ensures LogInv(s') && LogsGrow(s.history, s'.history)
  {
    var h, h' := s.history, s'.history;
    assert NodeOk(s, i) && NodeLogOk(h, s.nodes[i]);
    assert LogsGrow(h, h');
    TracedGrows(h, h', s.nodes[i].log);
    ExtendTraced(h', s.nodes[i].log, n.currentTerm, entry);
    KeepLeading(s, s', i, n);
  }

  lemma LogClientAppend(s: Cluster, i: int, command: string)
    requires ElectionInv(s) && LogInv(s) && i in s.nodes
    ensures LogInv(OnCommand(s, i, command))
    ensures LogsGrow(s.history, OnCommand(s, i, command).history)
  {
    var s', n := OnCommand(s, i, command), s.nodes[i];
    if n.role == Leader {
      LogAppended(s, s', i, LogEntry(n.currentTerm, command, |n.log|), s'.nodes[i]);
    } else {
      assert s'.nodes == s.nodes;
    }
  }

  lemma MadeRequestOk(h: History, n: Node, p: nat)
    requires NodeLogOk(h, n) && p < |n.peers| && (n.role == Leader ==> n.currentTerm >= 1)
    ensures RequestOk(h, MakeAppendEntries(n, p))
    ensures n.role == Leader ==> var args := MakeAppendEntries(n, p);
      args.term == n.currentTerm && args.leaderId == n.id && args.leaderCommit == n.commitIndex
      && (CarriesSlice(h, args) ==> End(args) == |n.log|)
  {
    var args := MakeAppendEntries(n, p);
    if n.role == Leader && args.prevLogIndex < |n.log| {
      assert args.entries == n.log[args.prevLogIndex + 1..];
      assert CarriesSlice(h, args);
    }
  }

  lemma LogSend(s: Cluster, p: Packet)
    requires ElectionInv(s) && LogInv(s) && p.src in s.nodes
    requires p.AppendRequest? ==> RequestOk(s.history, p.args)
    ensures LogInv(Send(s, p))
  {
    assert NodeOk(s, p.src);
    KeepSameLog(s, Send(s, p), p.src);
  }

  lemma LogQuiet(s: Cluster, i: int, n: Node)
    requires ElectionInv(s) && LogInv(s) && i in s.nodes
    requires n.log == s.nodes[i].log && n.currentTerm == s.nodes[i].currentTerm && n.role == s.nodes[i].role
    ensures LogInv(Become(s, i, n))
  {
    assert NodeOk(s, i);
    KeepSameLog(s, Become(s, i, n), i);
  }

  /** The log a follower ends up with when it answers a request. */
  lemma AcceptedLog(n: Node, args: AppendRequestArgs)
    requires DiskOk(n)
    ensures var (n', reply) := HandleAppendEntries(n, args);
      && (reply.success <==> args.term >= n.currentTerm && Matches(n.log, args.prevLogIndex, args.prevLogTerm))
      && n'.log == (if reply.success then Merge(n.log, args.prevLogIndex + 1, args.entries) else n.log)
  {
    hide Merge;
    var m := MeetLeader(n, args.term, args.leaderId);
    if Matches(m.log, args.prevLogIndex, args.prevLogTerm) {
      StoreFrame(m, args.prevLogIndex, args.entries);
      CommitToKeepsLog(Store(m, args.prevLogIndex, args.entries), args.leaderCommit);
    }
  }

  lemma CommitToKeepsLog(n: Node, leaderCommit: int)
    ensures CommitTo(n, leaderCommit).log == n.log
  {
  }

  lemma PrefixOk(h: History, leader: seq<LogEntry>, bound: int, end: nat)
    requires WellFormed(leader, bound) && Traced(h, leader) && 1 <= end <= |leader|
    ensures WellFormed(leader[..end], bound) && Traced(h, leader[..end])
  {
    forall k | 1 <= k < end ensures FromLeader(h, leader[..end], k) {
      assert FromLeader(h, leader, k);
    }
  }

  /** A successful request carried a slice of its leader's log, or was blank and changed nothing. */
  lemma SuccessCarriesSlice(h: History, n: Node, args: AppendRequestArgs)
    requires RequestOk(h, args) && NodeLogOk(h, n) && Matches(n.log, args.prevLogIndex, args.prevLogTerm)
    ensures IsBlank(args) || (args.term >= 1 && CarriesSlice(h, args))
  {
  }

  lemma FollowerLogOk(h: History, n: Node, args: AppendRequestArgs)
    requires NodeLogOk(h, n) && DiskOk(n) && RequestOk(h, args)
    requires args.term in h.logs ==> LeaderLogOk(h, args.term)
    requires args.term >= n.currentTerm
    ensures NodeLogOk(h, HandleAppendEntries(n, args).0)
  {
    hide Merge;
    var n' := HandleAppendEntries(n, args).0;
    AcceptedLog(n, args);
    AppendEntriesEffect(n, args);
    if Matches(n.log, args.prevLogIndex, args.prevLogTerm) {
      SuccessCarriesSlice(h, n, args);
      if !IsBlank(args) {
        MergeAccepted(h, n.log, args);
        PrefixOk(h, h.logs[args.term], args.term, End(args));
      }
    }
  }

  /** The receiver's log is good and nothing else about logs changes. */
  lemma KeepReceiver(s: Cluster, s': Cluster, i: int)
    requires LogInv(s) && ChangesNode(s, s', i) && NodeLogOk(s.history, s'.nodes[i])
    requires s'.history.logs == s.history.logs && s'.history.elections == s.history.elections
    requires s'.history.votes == s.history.votes
    requires forall p :: p in s'.net && p.AppendRequest? ==> p in s.net
    ensures LogInv(s')
  {
    TracedGrows(s.history, s'.history, s'.nodes[i].log);
    LeadersRecorded(s, s'.history);
    KeepLogs(s, s', i);
  }

  lemma DeliveredNodeOk(s: Cluster, p: Packet)
    requires ElectionInv(s) && LogInv(s) && Arriving(s, p) && p.AppendRequest?
    ensures NodeLogOk(s.history, HandleAppendEntries(s.nodes[p.dst], p.args).0)
  {
    var n := s.nodes[p.dst];
    assert NodeOk(s, p.dst) && NodeLogOk(s.history, n) && RequestOk(s.history, p.args);
    if p.args.term >= n.currentTerm {
      assert p.args.term in s.history.logs ==> LeaderLogOk(s.history, p.args.term);
      FollowerLogOk(s.history, n, p.args);
    }
  }

  lemma LogDeliverAppend(s: Cluster, p: Packet)
    requires ElectionInv(s) && LogInv(s) && Arriving(s, p) && p.AppendRequest?
    ensures LogInv(OnAppend(s, p))
  {
    hide HandleAppendEntries;
    DeliveredNodeOk(s, p);
    KeepReceiver(s, OnAppend(s, p), p.dst);
  }

  lemma LogAppendReply(s: Cluster, p: Packet)
    requires ElectionInv(s) && LogInv(s) && Arriving(s, p) && p.AppendReply?
    ensures LogInv(OnAppendReply(s, p))
  {
    hide HandleAppendEntriesResponse;
    assert NodeOk(s, p.dst);
    AppendResponseEffect(s.nodes[p.dst], p.src, p.reply);
    KeepSameLog(s, OnAppendReply(s, p), p.dst);
  }

  /** A restart brings back a prefix of the log the node had. */
  lemma LogRestart(s: Cluster, i: int, before: Node)
    requires ElectionInv(s) && LogInv(s) && i in s.nodes
    requires DiskOk(before) && before.log == s.nodes[i].log && before.currentTerm >= s.nodes[i].currentTerm
    ensures LogInv(Become(s, i, Restart(before)))
  {
    var log := before.disk.log;
    assert NodeLogOk(s.history, s.nodes[i]);
    assert log == s.nodes[i].log[..|log|];
    PrefixOk(s.history, s.nodes[i].log, s.nodes[i].currentTerm, |log|);
    LeadersRecorded(s, s.history);
    KeepLogs(s, Become(s, i, Restart(before)), i);
  }

  lemma StepKeepsLogInv(s: Cluster, e: Event)
    requires ElectionInv(s) && LogInv(s) && Enabled(s, e)
    ensures LogInv(Step(s, e))
  {
    hide OnTimeout, OnVoteRequest, OnVoteReply, OnCommand, OnAppend, OnAppendReply, Restart;
    match e
    case Timeout(i) => LogTimeout(s, i);
    case SendVoteRequest(i, to, term, lastIndex, lastTerm) =>
      LogSend(s, VoteRequest(i, to, RequestVoteArgs(term, i, lastIndex, lastTerm)));
    case DeliverVoteRequest(p) => LogVoteRequest(s, p);
    case DeliverVoteReply(p) => LogVoteReply(s, p);
    case ClientAppend(i, command) => LogClientAppend(s, i, command);
    case SendAppend(i, peer) =>
      assert NodeOk(s, i) && NodeLogOk(s.history, s.nodes[i]);
      MadeRequestOk(s.history, s.nodes[i], peer);
      LogSend(s, AppendRequest(i, s.nodes[i].peers[peer], MakeAppendEntries(s.nodes[i], peer)));
    case DeliverAppend(p) => LogDeliverAppend(s, p);
    case DeliverAppendReply(p) => LogAppendReply(s, p);
    case Apply(i) => LogQuiet(s, i, ApplyCommitted(s.nodes[i]));
    case Save(i) => LogQuiet(s, i, Persist(s.nodes[i]));
    case Crash(i) =>
      assert NodeOk(s, i);
      LogRestart(s, i, s.nodes[i]);
    case CrashInVote(p) =>
      assert NodeOk(s, p.dst);
      LogRestart(s, p.dst, StepDown(s.nodes[p.dst], p.ask.term));
    case CrashInAppend(p) =>
      assert NodeOk(s, p.dst);
      LogRestart(s, p.dst, MeetLeader(s.nodes[p.dst], p.args.term, p.args.leaderId));
  }

  lemma LogElectionGrows(s: Cluster, p: Packet)
    requires ElectionInv(s) && LogInv(s) && Arriving(s, p) && p.VoteReply?
    ensures LogsGrow(s.history, OnVoteReply(s, p).history)
  {
    hide HandleVoteResponse;
    assert NodeOk(s, p.dst);
    VoteResponseEffect(s.nodes[p.dst], p.src, p.vote);
    KeepDeliverVoteReply(s, p);
  }

  lemma StepGrowsLogs(s: Cluster, e: Event)
    requires ElectionInv(s) && LogInv(s) && Enabled(s, e)
    ensures LogsGrow(s.history, Step(s, e).history)
  {
    hide ElectionInv, LogInv, HandleRequestVote, HandleVoteResponse, HandleAppendEntries, HandleAppendEntriesResponse,
         Persist, Restart, StartElection, ApplyCommitted, MakeAppendEntries;
    match e
    case DeliverVoteReply(p) => LogElectionGrows(s, p);
    case ClientAppend(i, command) => LogClientAppend(s, i, command);
    case _ =>
  }

  // --- Runs ---

  lemma InitLogInv(s: Cluster)
    requires Init(s)
    ensures LogInv(s)
  {
  }

  lemma {:induction false} RunLogInv(states: seq<Cluster>, events: seq<Event>, k: nat)
    requires IsRun(states, events) && k < |states|
    ensures ElectionInv(states[k]) && LogInv(states[k])
  {
    hide Step, ElectionInv, LogInv;
    RunElectionInv(states, events, k);
    if k == 0 {
      InitLogInv(states[0]);
    } else {
      RunLogInv(states, events, k - 1);
      assert StepAt(states, events, k - 1);
      StepKeepsLogInv(states[k - 1], events[k - 1]);
    }
  }

  lemma RunStepGrowsLogs(states: seq<Cluster>, events: seq<Event>, k: nat)
    requires IsRun(states, events) && k < |events|
    ensures LogsGrow(states[k].history, states[k + 1].history)
  {
    hide Step, ElectionInv, LogInv, LogsGrow;
    RunLogInv(states, events, k);
    assert StepAt(states, events, k);
    StepGrowsLogs(states[k], events[k]);
  }

  lemma LogsGrowOn(h: History, m: History, h': History)
    requires LogsGrow(h, m) && LogsGrow(m, h')
    ensures LogsGrow(h, h')
  {
  }

  lemma {:induction false} RunLogsGrow(states: seq<Cluster>, events: seq<Event>, a: nat, b: nat)
    requires IsRun(states, events) && a <= b < |states|
    ensures LogsGrow(states[a].history, states[b].history)
    decreases b
  {
    if a < b {
      RunLogsGrow(states, events, a, b - 1);
      RunStepGrowsLogs(states, events, b - 1);
      LogsGrowOn(states[a].history, states[b - 1].history, states[b].history);
    }
  }
}
