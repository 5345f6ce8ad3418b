/**
 What leaders commit and what nodes believe committed and apply, kept by every careful
 step (sections 5.3 and 5.4.2 of the Raft paper).
 */
module Commitment {
  import opened RaftLog
  import opened RaftSpec
  import opened Cluster
  import opened ElectionSafety
  import opened LogMatching
  import opened LeaderCompleteness
  import opened CommitCounting

  // --- What leaders know and commit ---

  ghost predicate LeaderOk(s: Cluster, i: int)
    requires i in s.nodes
  {
    var n := s.nodes[i];
    n.role == Leader ==>
      forall p :: 0 <= p < |n.peers| ==>
        || n.matchIndex[p] == 0
        || (n.matchIndex[p] > 0 && Acked(s.history, n.peers[p], n.currentTerm, n.matchIndex[p] + 1))
  }

  predicate ReplyOk(h: History, p: Packet)
    requires p.AppendReply?
  {
    p.reply.success && p.request.term >= 1 ==>
      AckKey(p.src, p.request.term) in h.acks && h.acks[AckKey(p.src, p.request.term)] >= End(p.request)
  }

  ghost predicate CommitInv(s: Cluster) {
    && (forall i {:trigger LeaderOk(s, i)} :: i in s.nodes ==> LeaderOk(s, i))
    && (forall p {:trigger ReplyOk(s.history, p)} :: p in s.net && p.AppendReply? ==> ReplyOk(s.history, p))
    && (forall c {:trigger CommitOk(s, c)} :: c in s.history.commits ==> CommitOk(s, c))
  }

  // --- What nodes believe committed ---

  /** The first n entries of the log are covered by commit c of a leader up to term bound. */
  ghost predicate Covers(h: History, c: Commit, log: seq<LogEntry>, bound: int, n: nat) {
    c in h.commits && c.term <= bound && n <= c.length && c.term in h.logs && Agree(log, h.logs[c.term], n)
  }

  ghost predicate Committed(h: History, log: seq<LogEntry>, bound: int, n: nat) {
    n <= |log| && (n <= 1 || exists c :: Covers(h, c, log, bound, n))
  }

  ghost predicate AppliedOk(h: History, n: Node) {
    && n.lastApplied <= n.commitIndex <= LastIndex(n.log)
    && Committed(h, n.log, n.currentTerm, n.commitIndex + 1)
    && n.applied == Commands(n.log, 1, n.lastApplied + 1)
  }

  ghost predicate LeaderCommitOk(h: History, args: AppendRequestArgs) {
    && args.leaderCommit >= 0
    && (args.term >= 1 && !PointsPastEnd(args) ==>
          && args.term in h.logs && args.leaderCommit + 1 <= End(args)
          && Committed(h, h.logs[args.term], args.term, args.leaderCommit + 1))
  }

  ghost predicate ApplyInv(s: Cluster) {
    && (forall i {:trigger AppliedOk(s.history, s.nodes[i])} :: i in s.nodes ==> AppliedOk(s.history, s.nodes[i]))
    && (forall p {:trigger LeaderCommitOk(s.history, p.args)} ::
          p in s.net && p.AppendRequest? ==> LeaderCommitOk(s.history, p.args))
  }

  ghost predicate RaftInv(s: Cluster) {
    SafeInv(s) && CommitInv(s) && ApplyInv(s)
  }

  // --- Growth of the records ---

  ghost predicate AllGrows(h: History, h': History) {
    && GrowOwn(h, h') && Grows(h, h')
    && (forall key :: key in h.acks ==> key in h'.acks && h'.acks[key] >= h.acks[key])
    && h.commits <= h'.commits
  }

  lemma CommitGrows(s: Cluster, s': Cluster, c: Commit)
    requires CommitOk(s, c) && s'.nodes.Keys == s.nodes.Keys && AllGrows(s.history, s'.history)
    ensures CommitOk(s', c)
  {
    SameSize(s, s');
    assert s'.history.logs[c.term][c.length - 1] == s.history.logs[c.term][c.length - 1];
  }

  lemma CommittedGrows(h: History, h': History, log: seq<LogEntry>, bound: int, n: nat)
    requires Committed(h, log, bound, n) && AllGrows(h, h')
    ensures Committed(h', log, bound, n)
  {
    if n > 1 {
      var c :| Covers(h, c, log, bound, n);
      assert Covers(h', c, log, bound, n);
    }
  }

  lemma CommittedByPrefix(h: History, log: seq<LogEntry>, bound: int, n: nat, log': seq<LogEntry>, bound': int)
    requires Committed(h, log, bound, n) && Agree(log, log', n) && bound <= bound'
    ensures Committed(h, log', bound', n)
  {
    if n > 1 {
      var c :| Covers(h, c, log, bound, n);
      assert Covers(h, c, log', bound', n);
    }
  }

  lemma AppliedGrows(h: History, h': History, n: Node)
    requires AppliedOk(h, n) && AllGrows(h, h')
    ensures AppliedOk(h', n)
  {
    CommittedGrows(h, h', n.log, n.currentTerm, n.commitIndex + 1);
  }

  lemma LeaderCommitGrows(h: History, h': History, args: AppendRequestArgs)
    requires LeaderCommitOk(h, args) && AllGrows(h, h')
    ensures LeaderCommitOk(h', args)
  {
    if args.term >= 1 && !PointsPastEnd(args) {
      CommittedByPrefix(h, h.logs[args.term], args.term, args.leaderCommit + 1, h'.logs[args.term], args.term);
      CommittedGrows(h, h', h'.logs[args.term], args.term, args.leaderCommit + 1);
    }
  }

  // --- Preservation ---

  lemma LeaderGrows(s: Cluster, s': Cluster, j: int)
    requires j in s.nodes && j in s'.nodes && s'.nodes[j] == s.nodes[j]
    requires NodeOk(s, j) && LeaderOk(s, j) && AllGrows(s.history, s'.history)
    ensures LeaderOk(s', j)
  {
  }

  lemma KeepCommits(s: Cluster, s': Cluster, i: int)
    requires ElectionInv(s) && CommitInv(s) && ChangesNode(s, s', i) && AllGrows(s.history, s'.history)
    requires LeaderOk(s', i)
    requires forall p :: p in s'.net && p.AppendReply? ==> p in s.net || ReplyOk(s'.history, p)
    requires forall c :: c in s'.history.commits ==> c in s.history.commits || CommitOk(s', c)
    ensures CommitInv(s')
  {
    forall j | j in s'.nodes ensures LeaderOk(s', j) {
      if j != i {
        assert NodeOk(s, j) && LeaderOk(s, j);
        LeaderGrows(s, s', j);
      }
    }
    forall p | p in s'.net && p.AppendReply? ensures ReplyOk(s'.history, p) {
      if p in s.net { assert ReplyOk(s.history, p); }
    }
    forall c | c in s'.history.commits ensures CommitOk(s', c) {
      if c in s.history.commits {
        assert CommitOk(s, c);
        CommitGrows(s, s', c);
      }
    }
  }

  lemma KeepApplied(s: Cluster, s': Cluster, i: int)
    requires ApplyInv(s) && ChangesNode(s, s', i) && AllGrows(s.history, s'.history)
    requires AppliedOk(s'.history, s'.nodes[i])
    requires forall p :: p in s'.net && p.AppendRequest? ==> p in s.net || LeaderCommitOk(s'.history, p.args)
    ensures ApplyInv(s')
  {
    forall j | j in s'.nodes ensures AppliedOk(s'.history, s'.nodes[j]) {
      if j != i {
        assert AppliedOk(s.history, s.nodes[j]);
        AppliedGrows(s.history, s'.history, s.nodes[j]);
      }
    }
    forall p | p in s'.net && p.AppendRequest? ensures LeaderCommitOk(s'.history, p.args) {
      if p in s.net {
        assert LeaderCommitOk(s.history, p.args);
        LeaderCommitGrows(s.history, s'.history, p.args);
      }
    }
  }

  lemma StepAllGrows(s: Cluster, e: Event)
    requires ElectionInv(s) && LogInv(s) && Enabled(s, e)
    ensures AllGrows(s.history, Step(s, e).history)
  {
    hide HandleRequestVote, HandleVoteResponse, HandleAppendEntries, HandleAppendEntriesResponse, GrowOwn, Grows,
         ElectionInv, LogInv, Persist, Restart, StartElection, ApplyCommitted, MakeAppendEntries;
    StepGrows(s, e);
    match e
    case DeliverVoteReply(p) => WinGrowsOwn(s, p);
    case ClientAppend(i, command) => CommandGrowsOwn(s, i, command);
    case _ => StandsStill(s, Step(s, e));
  }

  // Events that leave a node's log, commit index and applied commands alone.

  lemma SameApplied(h: History, h': History, n: Node, n': Node)
    requires AppliedOk(h, n) && AllGrows(h, h')
    requires n'.log == n.log && n'.commitIndex == n.commitIndex && n'.lastApplied == n.lastApplied
    requires n'.applied == n.applied && n'.currentTerm >= n.currentTerm
    ensures AppliedOk(h', n')
  {
    CommittedByPrefix(h, n.log, n.currentTerm, n.commitIndex + 1, n.log, n'.currentTerm);
    CommittedGrows(h, h', n.log, n'.currentTerm, n.commitIndex + 1);
  }

  lemma SameAppliedNow(h: History, n: Node, n': Node)
    requires AppliedOk(h, n)
    requires n'.log == n.log && n'.commitIndex == n.commitIndex && n'.lastApplied == n.lastApplied
    requires n'.applied == n.applied && n'.currentTerm >= n.currentTerm
    ensures AppliedOk(h, n')
  {
    CommittedByPrefix(h, n.log, n.currentTerm, n.commitIndex + 1, n.log, n'.currentTerm);
  }

  lemma QuietKeeps(s: Cluster, s': Cluster, i: int)
    requires ElectionInv(s) && CommitInv(s) && ApplyInv(s) && ChangesNode(s, s', i) && AllGrows(s.history, s'.history)
    requires LeaderOk(s', i) && s'.history.commits == s.history.commits
    requires forall p :: p in s'.net && p.AppendReply? ==> p in s.net || ReplyOk(s'.history, p)
    requires forall p :: p in s'.net && p.AppendRequest? ==> p in s.net || LeaderCommitOk(s'.history, p.args)
    requires var n, n' := s.nodes[i], s'.nodes[i];
      && n'.log == n.log && n'.commitIndex == n.commitIndex && n'.lastApplied == n.lastApplied
      && n'.applied == n.applied && n'.currentTerm >= n.currentTerm
    ensures CommitInv(s') && ApplyInv(s')
  {
    assert AppliedOk(s.history, s.nodes[i]);
    SameApplied(s.history, s'.history, s.nodes[i], s'.nodes[i]);
    KeepCommits(s, s', i);
    KeepApplied(s, s', i);
  }

  lemma SafeTimeout(s: Cluster, i: int)
    requires RaftInv(s) && i in s.nodes && AllGrows(s.history, OnTimeout(s, i).history)
    ensures CommitInv(OnTimeout(s, i)) && ApplyInv(OnTimeout(s, i))
  {
    QuietKeeps(s, OnTimeout(s, i), i);
  }

  lemma SafeVoteRequest(s: Cluster, p: Packet)
    requires RaftInv(s) && Arriving(s, p) && p.VoteRequest? && AllGrows(s.history, OnVoteRequest(s, p).history)
    ensures CommitInv(OnVoteRequest(s, p)) && ApplyInv(OnVoteRequest(s, p))
  {
    hide HandleRequestVote;
    assert NodeOk(s, p.dst) && LeaderOk(s, p.dst);
    RequestVoteEffect(s.nodes[p.dst], p.ask);
    QuietKeeps(s, OnVoteRequest(s, p), p.dst);
  }

  lemma SafeVoteReply(s: Cluster, p: Packet)
    requires RaftInv(s) && Arriving(s, p) && p.VoteReply? && AllGrows(s.history, OnVoteReply(s, p).history)
    ensures CommitInv(OnVoteReply(s, p)) && ApplyInv(OnVoteReply(s, p))
  {
    hide HandleVoteResponse;
    assert NodeOk(s, p.dst) && LeaderOk(s, p.dst);
    VoteResponseEffect(s.nodes[p.dst], p.src, p.vote);
    QuietKeeps(s, OnVoteReply(s, p), p.dst);
  }

  lemma AppendKeepsApplied(h: History, h': History, n: Node, entry: LogEntry)
    requires AppliedOk(h, n) && AllGrows(h, h')
    ensures AppliedOk(h', n.(log := n.log + [entry]))
  {
    var n' := n.(log := n.log + [entry]);
    CommittedByPrefix(h, n.log, n.currentTerm, n.commitIndex + 1, n'.log, n'.currentTerm);
    CommittedGrows(h, h', n'.log, n'.currentTerm, n.commitIndex + 1);
    assert n'.applied == Commands(n'.log, 1, n'.lastApplied + 1);
  }

  lemma SafeCommand(s: Cluster, i: int, command: string)
    requires RaftInv(s) && i in s.nodes && AllGrows(s.history, OnCommand(s, i, command).history)
    ensures CommitInv(OnCommand(s, i, command)) && ApplyInv(OnCommand(s, i, command))
  {
    hide AllGrows, AppliedOk, LeaderCommitOk, ReplyOk, CommitOk;
    var s', n := OnCommand(s, i, command), s.nodes[i];
    assert NodeOk(s, i) && LeaderOk(s, i) && AppliedOk(s.history, n);
    hide CommitInv, ApplyInv, ElectionInv, LogInv, NodeOk;
    if n.role == Leader {
      AppendKeepsApplied(s.history, s'.history, n, LogEntry(n.currentTerm, command, |n.log|));
      KeepCommits(s, s', i);
      KeepApplied(s, s', i);
    } else {
      QuietKeeps(s, s', i);
    }
  }

  lemma SentLeaderCommitOk(s: Cluster, i: int, peer: nat)
    requires RaftInv(s) && i in s.nodes && peer < |s.nodes[i].peers|
    ensures LeaderCommitOk(s.history, MakeAppendEntries(s.nodes[i], peer))
  {
    assert NodeOk(s, i) && NodeLogOk(s.history, s.nodes[i]) && AppliedOk(s.history, s.nodes[i]);
  }

  lemma SafeSend(s: Cluster, p: Packet)
    requires RaftInv(s) && p.src in s.nodes && !p.AppendReply?
    requires p.AppendRequest? ==> LeaderCommitOk(s.history, p.args)
    ensures CommitInv(Send(s, p)) && ApplyInv(Send(s, p))
  {
    StandsStill(s, Send(s, p));
    assert LeaderOk(s, p.src);
    assert LeaderOk(Send(s, p), p.src);
    QuietKeeps(s, Send(s, p), p.src);
  }

  lemma SafeSave(s: Cluster, i: int)
    requires RaftInv(s) && i in s.nodes
    ensures CommitInv(Become(s, i, Persist(s.nodes[i]))) && ApplyInv(Become(s, i, Persist(s.nodes[i])))
  {
    StandsStill(s, Become(s, i, Persist(s.nodes[i])));
    assert LeaderOk(s, i);
    QuietKeeps(s, Become(s, i, Persist(s.nodes[i])), i);
  }

  lemma SafeApply(s: Cluster, i: int)
    requires RaftInv(s) && i in s.nodes
    ensures var s' := Become(s, i, ApplyCommitted(s.nodes[i])); CommitInv(s') && ApplyInv(s')
  {
    hide AppliedOk, LeaderCommitOk, CommitOk, ReplyOk;
    var s' := Become(s, i, ApplyCommitted(s.nodes[i]));
    StandsStill(s, s');
    assert LeaderOk(s, i) && AppliedOk(s.history, s.nodes[i]);
    hide CommitInv, ApplyInv, ElectionInv, LogInv;
    ApplyKeepsApplied(s.history, s.nodes[i]);
    KeepCommits(s, s', i);
    KeepApplied(s, s', i);
  }

  /** Applying hands over exactly the commands between lastApplied and the commit index. */
  lemma ApplyKeepsApplied(h: History, n: Node)
    requires AppliedOk(h, n)
    ensures AppliedOk(h, ApplyCommitted(n)) && ApplyCommitted(n).lastApplied == n.commitIndex
  {
    var n' := ApplyCommitted(n);
    if n.lastApplied < n.commitIndex {
      assert n'.applied == Commands(n.log, 1, n.commitIndex + 1);
    }
  }

  /** A restarted node starts over: it has applied nothing and knows of no commit. */
  lemma SafeRestart(s: Cluster, i: int, before: Node)
    requires RaftInv(s) && i in s.nodes
    ensures CommitInv(Become(s, i, Restart(before))) && ApplyInv(Become(s, i, Restart(before)))
  {
    var s' := Become(s, i, Restart(before));
    StandsStill(s, s');
    assert Commands(before.disk.log, 1, 1) == [];
    KeepCommits(s, s', i);
    KeepApplied(s, s', i);
  }

  // --- A follower accepts a request ---

  /** Leader Completeness, with the committing leader itself included. */
  lemma LeadersHold(s: Cluster, c: Commit, term: int)
    requires SafeInv(s) && CommitOk(s, c) && term in s.history.logs && c.term <= term
    ensures Agree(s.history.logs[term], s.history.logs[c.term], c.length)
  {
    if c.term < term {
      Completeness(s, c, term);
    }
  }

  lemma MergeKeepsShared(h: History, log: seq<LogEntry>, args: AppendRequestArgs, k: nat)
    requires Acceptable(h, log, args) && k <= |log| && (k <= 1 || Agree(log, h.logs[args.term], k))
    ensures Agree(log, Merge(log, args.prevLogIndex + 1, args.entries), k)
  {
    MergeAccepted(h, log, args);
    assert h.logs[args.term][0] == SENTINEL;
  }

  /** Accepting a request never disturbs what the node believes committed. */
  lemma MergeKeepsCommitted(s: Cluster, log: seq<LogEntry>, bound: int, args: AppendRequestArgs, k: nat)
    requires SafeInv(s) && CommitInv(s) && Acceptable(s.history, log, args) && bound <= args.term
    requires Committed(s.history, log, bound, k)
    ensures var log' := Merge(log, args.prevLogIndex + 1, args.entries);
      Committed(s.history, log', args.term, k) && Agree(log, log', k)
  {
    if k > 1 {
      var c :| Covers(s.history, c, log, bound, k);
      assert CommitOk(s, c);
      LeadersHold(s, c, args.term);
    }
    MergeKeepsShared(s.history, log, args, k);
    CommittedByPrefix(s.history, log, bound, k, Merge(log, args.prevLogIndex + 1, args.entries), args.term);
  }

  /** The node after storing the entries, before it looks at the leader's commit index. */
  lemma StoredApplied(s: Cluster, n: Node, m: Node, args: AppendRequestArgs)
    requires SafeInv(s) && CommitInv(s) && AppliedOk(s.history, n)
    requires Acceptable(s.history, n.log, args) && n.currentTerm <= args.term
    requires m.log == Merge(n.log, args.prevLogIndex + 1, args.entries) && m.currentTerm == args.term
    requires m.commitIndex == n.commitIndex && m.lastApplied == n.lastApplied && m.applied == n.applied
    ensures AppliedOk(s.history, m)
  {
    MergeKeepsCommitted(s, n.log, n.currentTerm, args, n.commitIndex + 1);
    assert m.applied == Commands(m.log, 1, m.lastApplied + 1);
  }

  lemma CommitToApplied(h: History, m: Node, args: AppendRequestArgs)
    requires AppliedOk(h, m) && LeaderCommitOk(h, args) && m.currentTerm == args.term >= 1
    requires CarriesSlice(h, args) && !PointsPastEnd(args) && Agree(m.log, h.logs[args.term], End(args))
    ensures AppliedOk(h, CommitTo(m, args.leaderCommit))
    ensures CommitTo(m, args.leaderCommit).commitIndex
            == (if args.leaderCommit > m.commitIndex then args.leaderCommit else m.commitIndex)
  {
    if args.leaderCommit > m.commitIndex {
      var m' := m.(commitIndex := args.leaderCommit);
      CommittedByPrefix(h, h.logs[args.term], args.term, args.leaderCommit + 1, m.log, args.term);
      assert AppliedOk(h, m');
      ApplyKeepsApplied(h, m');
    }
  }

  /** What a node believes committed and has applied after answering a request.  Although it
      cuts the leader's commit index at its own last index, it never commits past the
      entries the request verified. */
  lemma DeliveredApplied(s: Cluster, p: Packet)
    requires RaftInv(s) && Arriving(s, p) && p.AppendRequest?
    ensures var n, n' := s.nodes[p.dst], HandleAppendEntries(s.nodes[p.dst], p.args).0;
      && AppliedOk(s.history, n')
      && n'.commitIndex >= n.commitIndex
      && (n'.commitIndex > n.commitIndex ==>
            n'.commitIndex == p.args.leaderCommit <= p.args.prevLogIndex + |p.args.entries|)
      && n.applied <= n'.applied
  {
    hide AckInv, BallotInv, Merge;
    var h, n, args := s.history, s.nodes[p.dst], p.args;
    assert NodeOk(s, p.dst) && NodeLogOk(h, n) && AppliedOk(h, n);
    assert RequestOk(h, args) && LeaderCommitOk(h, args);
    if args.term >= n.currentTerm {
      if Matches(n.log, args.prevLogIndex, args.prevLogTerm) {
        AcceptApplied(s, n, args);
      } else {
        SameAppliedNow(h, n, MeetLeader(n, args.term, args.leaderId));
      }
    }
  }

  /** The node after the entries of an accepted request are stored. */
  lemma StoredFrom(n: Node, args: AppendRequestArgs)
    requires DiskOk(n) && Matches(n.log, args.prevLogIndex, args.prevLogTerm) && |n.log| >= 1
    ensures var m := MeetLeader(n, args.term, args.leaderId);
      args.prevLogIndex < |m.log|
      && var n' := Store(m, args.prevLogIndex, args.entries);
      && n'.log == Merge(n.log, args.prevLogIndex + 1, args.entries) && n'.currentTerm == args.term
      && n'.commitIndex == n.commitIndex && n'.lastApplied == n.lastApplied && n'.applied == n.applied
  {
    hide Merge;
    StoreFrame(MeetLeader(n, args.term, args.leaderId), args.prevLogIndex, args.entries);
  }

  lemma BlankApplied(h: History, n: Node, args: AppendRequestArgs)
    requires AppliedOk(h, n) && IsBlank(args) && args.term >= n.currentTerm
    ensures var m := MeetLeader(n, args.term, args.leaderId);
      args.prevLogIndex < |m.log|
      && var n' := CommitTo(Store(m, args.prevLogIndex, args.entries), args.leaderCommit);
      AppliedOk(h, n') && n'.commitIndex == n.commitIndex && n'.applied == n.applied
  {
    SameAppliedNow(h, n, MeetLeader(n, args.term, args.leaderId));
  }

  /** The accepting branch: a blank request does nothing, any other one stores and commits. */
  lemma AcceptApplied(s: Cluster, n: Node, args: AppendRequestArgs)
    requires SafeInv(s) && CommitInv(s) && AppliedOk(s.history, n) && LeaderCommitOk(s.history, args)
    requires NodeLogOk(s.history, n) && RequestOk(s.history, args) && DiskOk(n)
    requires args.term >= n.currentTerm && Matches(n.log, args.prevLogIndex, args.prevLogTerm)
    ensures var m := MeetLeader(n, args.term, args.leaderId);
      args.prevLogIndex < |m.log|
      && var n' := CommitTo(Store(m, args.prevLogIndex, args.entries), args.leaderCommit);
      && AppliedOk(s.history, n')
      && n'.commitIndex >= n.commitIndex
      && (n'.commitIndex > n.commitIndex ==> n'.commitIndex == args.leaderCommit <= args.prevLogIndex + |args.entries|)
      && n.applied <= n'.applied
  {
    SuccessCarriesSlice(s.history, n, args);
    if IsBlank(args) {
      BlankApplied(s.history, n, args);
    } else {
      assert LogInv(s) && LeaderLogOk(s.history, args.term);
      StoredFrom(n, args);
      AcceptedApplied(s, n, Store(MeetLeader(n, args.term, args.leaderId), args.prevLogIndex, args.entries), args);
    }
  }

  lemma AcceptedApplied(s: Cluster, n: Node, m: Node, args: AppendRequestArgs)
    requires SafeInv(s) && CommitInv(s) && AppliedOk(s.history, n) && LeaderCommitOk(s.history, args)
    requires Acceptable(s.history, n.log, args) && n.currentTerm <= args.term && args.term >= 1 && !PointsPastEnd(args)
    requires m.log == Merge(n.log, args.prevLogIndex + 1, args.entries) && m.currentTerm == args.term
    requires m.commitIndex == n.commitIndex && m.lastApplied == n.lastApplied && m.applied == n.applied
    ensures var n' := CommitTo(m, args.leaderCommit);
      && AppliedOk(s.history, n')
      && n'.commitIndex >= n.commitIndex
      && (n'.commitIndex > n.commitIndex ==> n'.commitIndex == args.leaderCommit <= args.prevLogIndex + |args.entries|)
      && n.applied <= n'.applied
  {
    StoredApplied(s, n, m, args);
    MergeAccepted(s.history, n.log, args);
    CommitToApplied(s.history, m, args);
  }

  lemma AnsweredLeaderOk(s: Cluster, p: Packet)
    requires RaftInv(s) && Arriving(s, p) && p.AppendRequest? && AllGrows(s.history, OnAppend(s, p).history)
    ensures LeaderOk(OnAppend(s, p), p.dst)
  {
    hide HandleAppendEntries, CommitOk, ApplyInv, GrowOwn, Grows, RecordAck;
    assert NodeOk(s, p.dst) && LeaderOk(s, p.dst);
    AppendEntriesEffect(s.nodes[p.dst], p.args);
  }

  lemma AnswerOk(s: Cluster, p: Packet)
    requires Arriving(s, p) && p.AppendRequest?
    ensures var reply := HandleAppendEntries(s.nodes[p.dst], p.args).1;
      && OnAppend(s, p).net == s.net + {AppendReply(p.dst, p.src, reply, p.args)}
      && ReplyOk(OnAppend(s, p).history, AppendReply(p.dst, p.src, reply, p.args))
      && OnAppend(s, p).history.commits == s.history.commits && ChangesNode(s, OnAppend(s, p), p.dst)
  {
    hide HandleAppendEntries;
  }

  lemma DeliverKeepsCommits(s: Cluster, p: Packet)
    requires RaftInv(s) && Arriving(s, p) && p.AppendRequest? && AllGrows(s.history, OnAppend(s, p).history)
    ensures CommitInv(OnAppend(s, p))
  {
    hide HandleAppendEntries, AllGrows, CommitOk, ApplyInv, LeaderOk, ReplyOk, OnAppend, CommitInv;
    AnsweredLeaderOk(s, p);
    AnswerOk(s, p);
    KeepCommits(s, OnAppend(s, p), p.dst);
  }

  lemma DeliverKeepsApplied(s: Cluster, p: Packet)
    requires RaftInv(s) && Arriving(s, p) && p.AppendRequest? && AllGrows(s.history, OnAppend(s, p).history)
    ensures ApplyInv(OnAppend(s, p))
  {
    hide HandleAppendEntries, AllGrows, AppliedOk, CommitInv, LeaderCommitOk;
    DeliveredApplied(s, p);
    AppliedGrows(s.history, OnAppend(s, p).history, OnAppend(s, p).nodes[p.dst]);
    KeepApplied(s, OnAppend(s, p), p.dst);
  }

  // --- A leader counts a reply ---

  /** The nodes a leader counts are a majority, and every peer among them acknowledged. */
  lemma CountedAcked(s: Cluster, i: int, n: Node, k: int)
    requires i in s.nodes && NodeOk(s, i) && n.id == i && n.peers == s.nodes[i].peers
    requires n.role == Leader && LeaderOk(Become(s, i, n), i)
    requires 1 <= k < |n.log| && Committable(n, k)
    ensures IsQuorum(s, Holders(n, k))
    ensures forall v :: v in Holders(n, k) && v != i ==> Acked(s.history, v, n.currentTerm, k + 1)
  {
    HoldersSize(s, i, n, k);
    MajorityOfPeers(s, i);
    forall v | v in Holders(n, k) && v != i ensures Acked(s.history, v, n.currentTerm, k + 1) {
      var p :| 0 <= p < |n.peers| && n.matchIndex[p] >= k && n.peers[p] == v;
      assert Acked(s.history, n.peers[p], n.currentTerm, n.matchIndex[p] + 1);
    }
  }

  /** The leader after recording a fresh success reply. */
  lemma FreshReplyLeaderOk(s: Cluster, p: Packet)
    requires RaftInv(s) && Enabled(s, DeliverAppendReply(p)) && Careful(s, DeliverAppendReply(p))
    requires var n := s.nodes[p.dst];
      n.role == Leader && p.reply.success && p.reply.term <= n.currentTerm && p.src in n.peers
    ensures var n := s.nodes[p.dst]; var q, last := PeerIndex(n.peers, p.src), LastIndex(n.log);
      q >= 0
      && LeaderOk(Become(s, p.dst, n.(matchIndex := n.matchIndex[q := last],
                                      nextIndex := n.nextIndex[q := last + 1])), p.dst)
  {
    assert NodeOk(s, p.dst) && LeaderOk(s, p.dst) && ReplyOk(s.history, p);
  }

  lemma SafeUncounted(s: Cluster, p: Packet)
    requires RaftInv(s) && Arriving(s, p) && p.AppendReply? && AllGrows(s.history, OnAppendReply(s, p).history)
    requires var n := s.nodes[p.dst];
      !(n.role == Leader && p.src in n.peers && p.reply.term <= n.currentTerm && p.reply.success)
    ensures CommitInv(OnAppendReply(s, p)) && ApplyInv(OnAppendReply(s, p))
  {
    hide HandleAppendEntriesResponse, AllGrows, AppliedOk, LeaderCommitOk, CommitOk, ReplyOk;
    var i, n := p.dst, s.nodes[p.dst];
    assert NodeOk(s, i) && LeaderOk(s, i);
    AppendResponseEffect(n, p.src, p.reply);
    UncountedReply(n, p.src, p.reply);
    QuietKeeps(s, OnAppendReply(s, p), i);
  }

  lemma SafeAppendReply(s: Cluster, p: Packet)
    requires RaftInv(s) && Enabled(s, DeliverAppendReply(p)) && Careful(s, DeliverAppendReply(p))
    requires AllGrows(s.history, OnAppendReply(s, p).history)
    ensures CommitInv(OnAppendReply(s, p)) && ApplyInv(OnAppendReply(s, p))
  {
    hide OnAppendReply, RaftInv, AllGrows, CommitInv, ApplyInv;
    var n := s.nodes[p.dst];
    if n.role == Leader && p.src in n.peers && p.reply.term <= n.currentTerm && p.reply.success {
      CountReply(s, OnAppendReply(s, p), p);
    } else {
      SafeUncounted(s, p);
    }
  }

  /** Only a success reply of a peer to a leader touches what the leader knows and commits. */
  lemma UncountedReply(n: Node, follower: int, reply: AppendEntriesReply)
    requires !(n.role == Leader && follower in n.peers && reply.term <= n.currentTerm && reply.success)
    ensures var n' := HandleAppendEntriesResponse(n, follower, reply).0;
      n'.matchIndex == n.matchIndex && n'.commitIndex == n.commitIndex
  {
  }

  lemma MovedLeaderOk(s: Cluster, s': Cluster, i: int, m: Node)
    requires i in s.nodes && i in s'.nodes && LeaderOk(Become(s, i, m), i) && NodeOk(s, i) && s.nodes[i].role == Leader
    requires m.role == Leader && m.currentTerm == s.nodes[i].currentTerm
    requires s'.nodes[i] == m.(commitIndex := s'.nodes[i].commitIndex) && AllGrows(s.history, s'.history)
    ensures LeaderOk(s', i)
  {
  }

  ghost predicate Counted(s: Cluster, s': Cluster, i: int, m: Node) {
    && i in s.nodes && s.nodes[i].role == Leader && m.role == Leader
    && m == s.nodes[i].(matchIndex := m.matchIndex, nextIndex := m.nextIndex)
    && LeaderOk(Become(s, i, m), i)
    && s'.nodes == s.nodes[i := UpdateCommitIndex(m)] && s'.net == s.net
    && s'.history == RecordCommit(s.history, s.nodes[i], UpdateCommitIndex(m)) && AllGrows(s.history, s'.history)
  }

  lemma CountingLeader(s: Cluster, s': Cluster, i: int, m: Node)
    requires SafeInv(s) && Counted(s, s', i, m)
    ensures NodeOk(s, i) && m.id == i && m.peers == s.nodes[i].peers && s'.nodes.Keys == s.nodes.Keys
    ensures m.currentTerm in s.history.logs && m.log == s.history.logs[m.currentTerm]
  {
    hide UpdateCommitIndex, RecordCommit, AllGrows, LeaderOk, BallotInv, AckInv;
    assert NodeOk(s, i) && NodeLogOk(s.history, s.nodes[i]);
  }

  lemma MovedCommitOk(s: Cluster, s': Cluster, i: int, m: Node)
    requires SafeInv(s) && Counted(s, s', i, m) && UpdateCommitIndex(m).commitIndex > s.nodes[i].commitIndex
    ensures var n' := UpdateCommitIndex(m);
      var c := Commit(m.currentTerm, n'.commitIndex + 1, Holders(n', n'.commitIndex));
      s'.history.commits == s.history.commits + {c} && CommitOk(s', c)
      && Covers(s'.history, c, n'.log, n'.currentTerm, n'.commitIndex + 1)
  {
    hide UpdateCommitIndex, CommitOk, Covers, RecordCommit, Holders, AllGrows, SafeInv;
    var n' := UpdateCommitIndex(m);
    UpdateFrame(m);
    UpdateMoves(m);
    CountingLeader(s, s', i, m);
    CountedAcked(s, i, m, n'.commitIndex);
    SameHolders(m, n', n'.commitIndex);
    MovedRecorded(s, s', i, n');
  }

  lemma MovedRecorded(s: Cluster, s': Cluster, i: int, n': Node)
    requires i in s.nodes && n'.id == i && s'.nodes.Keys == s.nodes.Keys
    requires s'.history == RecordCommit(s.history, s.nodes[i], n') && n'.commitIndex > s.nodes[i].commitIndex
    requires 1 <= n'.commitIndex < |n'.log| && n'.log[n'.commitIndex].term == n'.currentTerm
    requires n'.currentTerm in s.history.logs && n'.log == s.history.logs[n'.currentTerm]
    requires var q := Holders(n', n'.commitIndex);
      IsQuorum(s, q) && forall v :: v in q && v != i ==> Acked(s.history, v, n'.currentTerm, n'.commitIndex + 1)
    ensures var c := Commit(n'.currentTerm, n'.commitIndex + 1, Holders(n', n'.commitIndex));
      s'.history.commits == s.history.commits + {c} && CommitOk(s', c)
      && Covers(s'.history, c, n'.log, n'.currentTerm, n'.commitIndex + 1)
  {
    hide Holders;
    CommitRecorded(s, s', i, Commit(n'.currentTerm, n'.commitIndex + 1, Holders(n', n'.commitIndex)), n'.log);
  }

  /** With the leader's own acknowledgement the commit is good. */
  lemma CommitRecorded(s: Cluster, s': Cluster, i: int, c: Commit, log: seq<LogEntry>)
    requires s'.nodes.Keys == s.nodes.Keys && IsQuorum(s, c.quorum)
    requires c.term in s.history.logs && log == s.history.logs[c.term]
    requires 2 <= c.length <= |log| && log[c.length - 1].term == c.term
    requires forall v :: v in c.quorum && v != i ==> Acked(s.history, v, c.term, c.length)
    requires s'.history ==
             RecordAck(s.history.(commits := s.history.commits + {c}), AckKey(i, c.term), c.length)
    ensures CommitOk(s', c) && Covers(s'.history, c, log, c.term, c.length)
  {
    SameSize(s, s');
    forall v | v in c.quorum ensures Acked(s'.history, v, c.term, c.length) {
      assert v != i ==> Acked(s.history, v, c.term, c.length);
    }
  }

  lemma UpdateFrame(m: Node)
    ensures var n' := UpdateCommitIndex(m);
      n'.commitIndex >= m.commitIndex && n' == m.(commitIndex := n'.commitIndex)
  {
  }

  lemma UpdateMoves(m: Node)
    requires m.role == Leader && UpdateCommitIndex(m).commitIndex > m.commitIndex
    ensures var k := UpdateCommitIndex(m).commitIndex;
      1 <= k < |m.log| && Committable(m, k) && m.log[k].term == m.currentTerm
  {
    ScanFindsHighest(m, LastIndex(m.log));
  }

  lemma SameHolders(m: Node, n': Node, k: int)
    requires n'.id == m.id && n'.peers == m.peers && n'.matchIndex == m.matchIndex
    ensures Holders(n', k) == Holders(m, k)
  {
  }

  lemma MovedApplied(s: Cluster, s': Cluster, i: int, m: Node)
    requires SafeInv(s) && Counted(s, s', i, m) && AppliedOk(s.history, s.nodes[i])
    ensures AppliedOk(s'.history, UpdateCommitIndex(m))
  {
    hide UpdateCommitIndex, CommitOk, AllGrows, LeaderOk;
    UpdateFrame(m);
    if UpdateCommitIndex(m).commitIndex > m.commitIndex {
      MovedCommitOk(s, s', i, m);
    } else {
      CommittedGrows(s.history, s'.history, m.log, m.currentTerm, m.commitIndex + 1);
    }
  }

  /** The leader m, having counted a reply, moves its commit index. */
  lemma CommitMoves(s: Cluster, s': Cluster, i: int, m: Node)
    requires RaftInv(s) && Counted(s, s', i, m)
    ensures CommitInv(s')
  {
    hide UpdateCommitIndex, CommitOk, AllGrows, LeaderOk;
    assert NodeOk(s, i);
    if UpdateCommitIndex(m).commitIndex > s.nodes[i].commitIndex {
      MovedCommitOk(s, s', i, m);
    }
    UpdateFrame(m);
    MovedLeaderOk(s, s', i, m);
    KeepCommits(s, s', i);
  }

  lemma CommitMovesApplied(s: Cluster, s': Cluster, i: int, m: Node)
    requires RaftInv(s) && Counted(s, s', i, m)
    ensures ApplyInv(s')
  {
    hide UpdateCommitIndex;
    assert AppliedOk(s.history, s.nodes[i]);
    MovedApplied(s, s', i, m);
    KeepApplied(s, s', i);
  }

  lemma CountReply(s: Cluster, s': Cluster, p: Packet)
    requires RaftInv(s) && Enabled(s, DeliverAppendReply(p)) && Careful(s, DeliverAppendReply(p))
    requires var n := s.nodes[p.dst];
      n.role == Leader && p.reply.success && p.reply.term <= n.currentTerm && p.src in n.peers
    requires s' == OnAppendReply(s, p) && AllGrows(s.history, s'.history)
    ensures CommitInv(s') && ApplyInv(s')
  {
    hide UpdateCommitIndex;
    var n := s.nodes[p.dst];
    var q, last := PeerIndex(n.peers, p.src), LastIndex(n.log);
    FreshReplyLeaderOk(s, p);
    var m := n.(matchIndex := n.matchIndex[q := last], nextIndex := n.nextIndex[q := last + 1]);
    CommitMoves(s, s', p.dst, m);
    CommitMovesApplied(s, s', p.dst, m);
  }

  lemma StepKeepsCommits(s: Cluster, e: Event)
    requires RaftInv(s) && Enabled(s, e) && Careful(s, e)
    ensures CommitInv(Step(s, e)) && ApplyInv(Step(s, e))
  {
    hide OnTimeout, OnVoteRequest, OnVoteReply, OnCommand, OnAppend, OnAppendReply, Restart, CommitInv, ApplyInv;
    StepAllGrows(s, e);
    match e
    case Timeout(i) => SafeTimeout(s, i);
    case SendVoteRequest(i, to, term, lastIndex, lastTerm) =>
      SafeSend(s, VoteRequest(i, to, RequestVoteArgs(term, i, lastIndex, lastTerm)));
    case DeliverVoteRequest(p) => SafeVoteRequest(s, p);
    case DeliverVoteReply(p) => SafeVoteReply(s, p);
    case ClientAppend(i, command) => SafeCommand(s, i, command);
    case SendAppend(i, peer) =>
      SentLeaderCommitOk(s, i, peer);
      SafeSend(s, AppendRequest(i, s.nodes[i].peers[peer], MakeAppendEntries(s.nodes[i], peer)));
    case DeliverAppend(p) =>
      DeliverKeepsCommits(s, p);
      DeliverKeepsApplied(s, p);
    case DeliverAppendReply(p) => SafeAppendReply(s, p);
    case Apply(i) => SafeApply(s, i);
    case Save(i) => SafeSave(s, i);
    case Crash(i) => SafeRestart(s, i, s.nodes[i]);
    case CrashInVote(p) => SafeRestart(s, p.dst, StepDown(s.nodes[p.dst], p.ask.term));
    case CrashInAppend(p) => SafeRestart(s, p.dst, MeetLeader(s.nodes[p.dst], p.args.term, p.args.leaderId));
  }

  lemma StepKeepsRaftInv(s: Cluster, e: Event)
    requires RaftInv(s) && Enabled(s, e) && Careful(s, e)
    ensures RaftInv(Step(s, e))
  {
    StepKeepsElectionInv(s, e);
    StepKeepsLogInv(s, e);
    StepKeepsBallots(s, e);
    StepKeepsAcks(s, e);
    StepKeepsCommits(s, e);
  }

  lemma InitRaftInv(s: Cluster)
    requires Init(s)
    ensures RaftInv(s)
  {
    InitElectionInv(s);
    forall i | i in s.nodes ensures NodeLogOk(s.history, s.nodes[i]) && AppliedOk(s.history, s.nodes[i]) {
    }
  }
}
