/**
 What each handler of a node owes its callers, said of the fields of the node and of the
 answer alone: when a vote must be given, what a higher term does, when a candidate wins, what
 a request makes a follower store, commit and apply, and what a leader learns from a reply.
 The proofs about runs need only part of this; a program could keep every one of them and
 still never elect, commit or apply anything.
 */
module Handlers {
  import opened RaftLog
  import opened RaftSpec
  import opened ElectionSafety

  function Max(a: int, b: int): int {
    if a >= b then a else b
  }

  ghost predicate SameIdentity(n: Node, n': Node) {
    n'.id == n.id && n'.peers == n.peers
  }

  /** Log, commit index, applied commands and what is known of the peers are untouched. */
  ghost predicate SameReplication(n: Node, n': Node) {
    && n'.log == n.log && n'.commitIndex == n.commitIndex
    && n'.lastApplied == n.lastApplied && n'.applied == n.applied
    && n'.nextIndex == n.nextIndex && n'.matchIndex == n.matchIndex
  }

  ghost predicate OnDisk(n: Node) {
    n.disk.term == n.currentTerm && n.disk.vote == n.votedFor && n.disk.log == n.log
  }

  /** More than half of the whole cluster. */
  predicate MostOf(n: Node, count: int) {
    2 * count > |n.peers| + 1
  }

  // --- Standing for election and voting ---

  /** A timeout makes a candidate of the next term, which has voted for itself and saved that. */
  lemma Stands(n: Node)
    ensures var n' := StartElection(n);
      && n'.role == Candidate && n'.currentTerm == n.currentTerm + 1 == n'.electionTerm
      && n'.votedFor == n.id && n'.votesReceived == {n.id} && n'.leaderId == -1
      && OnDisk(n') && SameIdentity(n, n') && SameReplication(n, n')
  {
  }

  /** When a vote must be given: the request is not of an older term, the vote of its term is
      free or already the candidate's, and the candidate's last entry is of a later term than
      the voter's or of the same term and no earlier position. */
  ghost predicate Deserves(n: Node, args: RequestVoteArgs) {
    && args.term >= n.currentTerm
    && (args.term > n.currentTerm || n.votedFor == -1 || n.votedFor == args.candidateId)
    && (args.lastLogTerm > LastTerm(n.log)
        || (args.lastLogTerm == LastTerm(n.log) && args.lastLogIndex >= LastIndex(n.log)))
  }

  lemma DeservesMeans(n: Node, args: RequestVoteArgs)
    ensures Deserves(n, args) <==>
            && args.term >= n.currentTerm
            && (args.term > n.currentTerm || n.votedFor == -1 || n.votedFor == args.candidateId)
            && UpToDate(args.lastLogIndex, args.lastLogTerm, n.log)
  {
  }

  lemma VoteAnswered(n: Node, args: RequestVoteArgs)
    ensures var (n', reply) := HandleRequestVote(n, args);
      && (reply.voteGranted <==> Deserves(n, args))
      && reply.term == n'.currentTerm == Max(n.currentTerm, args.term)
      && (reply.voteGranted ==> n'.votedFor == args.candidateId && OnDisk(n'))
      && SameIdentity(n, n') && SameReplication(n, n')
  {
  }

  /** A higher term in a vote request is taken over and saved, whether or not the vote is given. */
  lemma VoteTakesTerm(n: Node, args: RequestVoteArgs)
    requires args.term > n.currentTerm
    ensures var (n', reply) := HandleRequestVote(n, args);
      && n'.currentTerm == args.term && n'.role == Follower && n'.leaderId == -1
      && n'.votesReceived == {} && n'.electionTerm == -1
      && n'.votedFor == (if Deserves(n, args) then args.candidateId else -1) && OnDisk(n')
  {
  }

  /** Within its term a voter changes nothing but its vote, and that only when it gives it. */
  lemma VoteKeepsRole(n: Node, args: RequestVoteArgs)
    requires args.term <= n.currentTerm
    ensures var (n', reply) := HandleRequestVote(n, args);
      && n'.role == n.role && n'.leaderId == n.leaderId
      && n'.votesReceived == n.votesReceived && n'.electionTerm == n.electionTerm
      && (!reply.voteGranted ==> n' == n)
  {
  }

  // --- Higher terms in replies ---

  /** The node gave up its role for a higher term and saved that. */
  ghost predicate Yields(n: Node, n': Node, term: int) {
    && n'.currentTerm == term && n'.role == Follower && n'.votedFor == -1 && n'.leaderId == -1
    && n'.votesReceived == {} && n'.electionTerm == n.electionTerm
    && OnDisk(n') && SameIdentity(n, n') && SameReplication(n, n')
  }

  lemma CandidateYields(n: Node, voter: int, reply: RequestVoteReply)
    requires n.role == Candidate && reply.term > n.currentTerm
    ensures var (n', won) := HandleVoteResponse(n, voter, reply); Yields(n, n', reply.term) && !won
  {
  }

  lemma LeaderYields(n: Node, follower: int, reply: AppendEntriesReply)
    requires n.role == Leader && follower in n.peers && reply.term > n.currentTerm
    ensures var (n', accepted) := HandleAppendEntriesResponse(n, follower, reply);
      Yields(n, n', reply.term) && !accepted
  {
  }

  // --- Counting votes ---

  /** A granted reply that belongs to the candidate's election. */
  ghost predicate Counts(n: Node, reply: RequestVoteReply) {
    n.role == Candidate && reply.voteGranted && n.electionTerm <= reply.term <= n.currentTerm
  }

  /** The node leads: it will send each peer what follows its own last entry, and knows of none
      what it holds. */
  ghost predicate Leads(n: Node, n': Node) {
    && n'.role == Leader && n'.leaderId == n.id && n'.votesReceived == {} && n'.electionTerm == -1
    && n'.currentTerm == n.currentTerm && n'.votedFor == n.votedFor && n'.disk == n.disk
    && n'.log == n.log && n'.commitIndex == n.commitIndex
    && n'.lastApplied == n.lastApplied && n'.applied == n.applied
    && SameIdentity(n, n')
    && (forall p :: 0 <= p < |n.peers| ==> n'.nextIndex[p] == |n.log| && n'.matchIndex[p] == 0)
  }

  /** A vote that counts is kept, and it wins exactly when it completes a majority. */
  lemma VoteCounted(n: Node, voter: int, reply: RequestVoteReply)
    requires Counts(n, reply)
    ensures var (n', won) := HandleVoteResponse(n, voter, reply);
      && (won <==> MostOf(n, |n.votesReceived + {voter}|))
      && if won then Leads(n, n') else n' == n.(votesReceived := n.votesReceived + {voter})
  {
  }

  /** Any other reply that is not of a higher term changes nothing. */
  lemma VoteNotCounted(n: Node, voter: int, reply: RequestVoteReply)
    requires !Counts(n, reply) && (n.role == Candidate ==> reply.term <= n.currentTerm)
    ensures HandleVoteResponse(n, voter, reply) == (n, false)
  {
  }

  // --- Whole elections ---

  datatype VoteReceived = VoteReceived(voter: int, reply: RequestVoteReply)

  /** The node after these replies have reached it, in this order. */
  function AfterVotes(n: Node, votes: seq<VoteReceived>): Node
    decreases |votes|
  {
    if votes == [] then n
    else
      var v := votes[|votes| - 1];
      HandleVoteResponse(AfterVotes(n, votes[..|votes| - 1]), v.voter, v.reply).0
  }

  /** Those who gave the candidate n their vote for its election. */
  ghost function Supporters(n: Node, votes: seq<VoteReceived>): set<int> {
    n.votesReceived + set k | 0 <= k < |votes| && Counts(n, votes[k].reply) :: votes[k].voter
  }

  lemma SupportersNext(n: Node, votes: seq<VoteReceived>)
    requires votes != []
    ensures var front, v := votes[..|votes| - 1], votes[|votes| - 1];
      Supporters(n, votes) == Supporters(n, front) + if Counts(n, v.reply) then {v.voter} else {}
  {
    var front, v := votes[..|votes| - 1], votes[|votes| - 1];
    forall w | w in Supporters(n, votes) - n.votesReceived
      ensures w in Supporters(n, front) + if Counts(n, v.reply) then {v.voter} else {}
    {
      var k :| 0 <= k < |votes| && Counts(n, votes[k].reply) && votes[k].voter == w;
      if k < |front| { assert front[k] == votes[k]; }
    }
    forall w | w in Supporters(n, front) - n.votesReceived ensures w in Supporters(n, votes) {
      var k :| 0 <= k < |front| && Counts(n, front[k].reply) && front[k].voter == w;
      assert votes[k] == front[k];
    }
  }

  /** A candidate that has not heard of a higher term leads exactly when more than half of the
      cluster supports it: whatever replies came, in whatever order, late, refused or repeated. */
  lemma {:induction false} MajorityElects(n: Node, votes: seq<VoteReceived>)
    requires n.role == Candidate && !MostOf(n, |n.votesReceived|)
    requires forall k :: 0 <= k < |votes| ==> votes[k].reply.term <= n.currentTerm
    ensures var n' := AfterVotes(n, votes);
      if MostOf(n, |Supporters(n, votes)|) then Leads(n, n')
      else n' == n.(votesReceived := Supporters(n, votes))
    decreases |votes|
  {
    if votes == [] {
      assert Supporters(n, votes) == n.votesReceived;
    } else {
      var front, v := votes[..|votes| - 1], votes[|votes| - 1];
      forall k | 0 <= k < |front| ensures front[k].reply.term <= n.currentTerm { assert front[k] == votes[k]; }
      MajorityElects(n, front);
      SupportersNext(n, votes);
      OneMoreVote(n, AfterVotes(n, front), v, Supporters(n, front), Supporters(n, votes));
    }
  }

  lemma OneMoreVote(n: Node, m: Node, v: VoteReceived, before: set<int>, after: set<int>)
    requires n.role == Candidate && v.reply.term <= n.currentTerm
    requires if MostOf(n, |before|) then Leads(n, m) else m == n.(votesReceived := before)
    requires after == before + if Counts(n, v.reply) then {v.voter} else {}
    ensures var n' := HandleVoteResponse(m, v.voter, v.reply).0;
      if MostOf(n, |after|) then Leads(n, n') else n' == n.(votesReceived := after)
  {
    SubsetSize(before, after);
    if Counts(m, v.reply) {
      VoteCounted(m, v.voter, v.reply);
    } else {
      VoteNotCounted(m, v.voter, v.reply);
    }
  }

  // --- A follower and its leader's request ---

  /** When a request must be accepted: it is not of an older term and the entry before its own
      entries is there with the term it says, position 0 always being there. */
  ghost predicate Fits(n: Node, args: AppendRequestArgs) {
    && args.term >= n.currentTerm
    && (args.prevLogIndex == 0
        || (args.prevLogIndex < |n.log| && n.log[args.prevLogIndex].term == args.prevLogTerm))
  }

  /** The answer, and what every request does to term and role. */
  lemma AppendAnswered(n: Node, args: AppendRequestArgs)
    ensures var (n', reply) := HandleAppendEntries(n, args);
      && (reply.success <==> Fits(n, args))
      && reply.term == n'.currentTerm == Max(n.currentTerm, args.term)
      && (args.term < n.currentTerm ==> n' == n)
      && (args.term >= n.currentTerm ==>
            && n'.role == Follower && n'.leaderId == args.leaderId
            && n'.votedFor == (if n.role == Follower then n.votedFor else -1)
            && (n.role != Follower ==> n'.votesReceived == {} && n'.electionTerm == -1)
            && n'.disk.term == args.term && n'.disk.vote == n'.votedFor && n'.disk.log == n'.log)
      && SameIdentity(n, n') && n'.nextIndex == n.nextIndex && n'.matchIndex == n.matchIndex
  {
    hide FirstDifference, ConflictStart, Numbered, Commands, Merge, UpToDate;
  }

  /** A refusal changes no log and nothing applied.  It points past the end of a log that is
      too short, or names the term in the way and where its unbroken stretch starts. */
  lemma AppendRefused(n: Node, args: AppendRequestArgs)
    requires !Fits(n, args)
    ensures var (n', reply) := HandleAppendEntries(n, args);
      && SameReplication(n, n')
      && (args.term < n.currentTerm ==> reply.conflictIndex == reply.conflictTerm == -1)
      && (args.term >= n.currentTerm && args.prevLogIndex >= |n.log| ==>
            reply.conflictIndex == |n.log| && reply.conflictTerm == -1)
      && (args.term >= n.currentTerm && args.prevLogIndex < |n.log| ==>
            && reply.conflictTerm == n.log[args.prevLogIndex].term
            && 1 <= reply.conflictIndex <= args.prevLogIndex
            && (forall k :: reply.conflictIndex <= k <= args.prevLogIndex ==> n.log[k].term == reply.conflictTerm)
            && (reply.conflictIndex > 1 ==> n.log[reply.conflictIndex - 1].term != reply.conflictTerm))
  {
  }

  /** The node once it has stored the entries, before it looks at the leader's commit index. */
  lemma Accepted(n: Node, args: AppendRequestArgs) returns (m: Node)
    requires Fits(n, args)
    ensures HandleAppendEntries(n, args).0 == CommitTo(m, args.leaderCommit)
    ensures args.prevLogIndex + 1 <= |n.log| && m.log == Merge(n.log, args.prevLogIndex + 1, args.entries)
    ensures m.commitIndex == n.commitIndex && m.lastApplied == n.lastApplied && m.applied == n.applied
  {
    hide FirstDifference, ConflictStart, Numbered, Commands, CommitTo;
    m := Store(MeetLeader(n, args.term, args.leaderId), args.prevLogIndex, args.entries);
  }

  /** What an accepted request leaves in the log: everything up to prevLogIndex, then the
      entries, where an entry of the right term that was there already stays, with what
      follows it, as long as nothing before it had to go. */
  lemma AppendStores(n: Node, args: AppendRequestArgs)
    requires Fits(n, args)
    ensures var n', start := HandleAppendEntries(n, args).0, args.prevLogIndex + 1;
      && start + |args.entries| <= |n'.log| && start <= |n.log|
      && (forall k :: 0 <= k < start ==> n'.log[k] == n.log[k])
      && (forall i :: 0 <= i < |args.entries| ==> FromEither(n.log, start, args.entries, n'.log, i))
      && (if FirstMatch(n.log, start, args.entries, |args.entries|) then n'.log == n.log
          else |n'.log| == start + |args.entries|)
  {
    hide HandleAppendEntries, Merge, Commands;
    var m := Accepted(n, args);
    MergeMeaning(n.log, args.prevLogIndex + 1, args.entries);
    if FirstMatch(n.log, args.prevLogIndex + 1, args.entries, |args.entries|) {
      AllThere(n.log, args.prevLogIndex + 1, args.entries);
    }
  }

  lemma AllThere(log: seq<LogEntry>, start: nat, entries: seq<LogEntry>)
    requires start <= |log| && FirstMatch(log, start, entries, |entries|)
    ensures start + |entries| <= |log|
    ensures forall i :: 0 <= i < |entries| ==> FromEither(log, start, entries, log, i)
  {
    if entries != [] {
      var last := |entries| - 1;
      assert entries[last].term == entries[last].term && start + last < |log|;
    }
  }

  /** What an accepted request makes a follower commit and apply: the leader's commit index if
      that is news, cut at the follower's last position, and then at once every command not yet
      applied up to there. */
  lemma AppendCommits(n: Node, args: AppendRequestArgs)
    requires Fits(n, args)
    ensures var n' := HandleAppendEntries(n, args).0;
      && n'.commitIndex == (if args.leaderCommit > n.commitIndex then Min(args.leaderCommit, |n'.log| - 1)
                            else n.commitIndex)
      && (if args.leaderCommit > n.commitIndex && n'.commitIndex > n.lastApplied
          then n'.lastApplied == n'.commitIndex
               && n'.applied == n.applied + Commands(n'.log, n.lastApplied + 1, n'.commitIndex + 1)
          else n'.lastApplied == n.lastApplied && n'.applied == n.applied)
  {
    hide HandleAppendEntries, Merge, Commands;
    var m := Accepted(n, args);
  }

  /** Applying hands over every committed command of the log not yet applied, and that only. */
  lemma Applies(n: Node)
    ensures var n' := ApplyCommitted(n);
      && n'.lastApplied == Max(n.lastApplied, n.commitIndex)
      && (n.commitIndex < |n.log| ==>
            n'.applied == n.applied + Commands(n.log, n.lastApplied + 1, n.commitIndex + 1))
      && n' == n.(lastApplied := n'.lastApplied, applied := n'.applied)
  {
  }

  // --- A leader ---

  /** A leader's answer to a command is where the log now has it, at the end and numbered so;
      -1 is the answer of a node that does not lead, and of no other. */
  lemma CommandAnswered(n: Node, command: string)
    ensures var (n', k) := AppendCommand(n, command);
      && (k == -1 <==> n.role != Leader)
      && (k == -1 ==> n' == n)
      && (k != -1 ==>
            && 0 <= k && |n'.log| == k + 1 && n'.log[..k] == n.log
            && n'.log[k].command == command && n'.log[k].index == k && n'.log[k].term == n.currentTerm
            && n' == n.(log := n'.log))
  {
  }

  /** A leader's request to peer number p: its own term, id and commit index, the place before
      nextIndex, and everything it has from nextIndex on. */
  lemma RequestMade(n: Node, p: int)
    requires n.role == Leader && 0 <= p < |n.peers|
    ensures var args, next := MakeAppendEntries(n, p), n.nextIndex[p];
      && args.term == n.currentTerm && args.leaderId == n.id && args.leaderCommit == n.commitIndex
      && args.prevLogIndex == next - 1
      && (1 < next <= |n.log| ==> args.prevLogTerm == n.log[next - 1].term)
      && (next == 1 || next > |n.log| ==> args.prevLogTerm == 0)
      && |args.entries| == Max(|n.log| - next, 0)
      && (forall k :: next <= k < |n.log| ==> args.entries[k - next] == n.log[k])
  {
  }

  /** The nodes that a leader knows to hold position k: itself, and these peer numbers. */
  ghost function KnownToHold(n: Node, k: int): set<int> {
    set p | 0 <= p < |n.peers| && n.matchIndex[p] >= k
  }

  /** Position k may be committed by counting: it is of the leader's term and known to be on
      more than half of the cluster. */
  ghost predicate MayCommit(n: Node, k: int) {
    0 <= k < |n.log| && n.log[k].term == n.currentTerm && MostOf(n, 1 + |KnownToHold(n, k)|)
  }

  lemma {:induction false} CountIsKnown(values: seq<int>, k: int)
    ensures CountAtLeast(values, k) == |set p | 0 <= p < |values| && values[p] >= k|
    decreases |values|
  {
    var all := set p | 0 <= p < |values| && values[p] >= k;
    if values == [] {
      assert all == {};
    } else {
      var last := |values| - 1;
      CountIsKnown(values[..last], k);
      var front := set p | 0 <= p < |values[..last]| && values[..last][p] >= k;
      assert all == front + if values[last] >= k then {last} else {};
    }
  }

  lemma CommittableMeans(n: Node, k: int)
    requires 0 <= k < |n.log|
    ensures Committable(n, k) <==> MayCommit(n, k)
  {
    CountIsKnown(n.matchIndex, k);
    assert KnownToHold(n, k) == set p | 0 <= p < |n.matchIndex| && n.matchIndex[p] >= k;
  }

  /** A success reply of a known peer, of no higher term: the leader notes its own last
      position for that peer and for no other, and then commits the last position that may be
      committed by counting, if that lies beyond its commit index. */
  lemma SuccessNoted(n: Node, follower: int, reply: AppendEntriesReply)
    requires n.role == Leader && follower in n.peers && reply.success && reply.term <= n.currentTerm
    ensures var (n', accepted) := HandleAppendEntriesResponse(n, follower, reply);
      var p := PeerIndex(n.peers, follower);
      && accepted && p >= 0
      && n'.matchIndex == n.matchIndex[p := |n.log| - 1] && n'.nextIndex == n.nextIndex[p := |n.log|]
      && n'.commitIndex >= n.commitIndex
      && (n'.commitIndex > n.commitIndex ==> MayCommit(n', n'.commitIndex))
      && (forall k :: k > n'.commitIndex ==> !MayCommit(n', k))
      && n' == n.(matchIndex := n'.matchIndex, nextIndex := n'.nextIndex, commitIndex := n'.commitIndex)
  {
    var p, last := PeerIndex(n.peers, follower), LastIndex(n.log);
    var m: Node := n.(matchIndex := n.matchIndex[p := last], nextIndex := n.nextIndex[p := last + 1]);
    var n' := HandleAppendEntriesResponse(n, follower, reply).0;
    assert n' == UpdateCommitIndex(m);
    ScanFindsHighest(m, last);
    forall k | k >= 0 ensures MayCommit(n', k) <==> MayCommit(m, k) {
      assert KnownToHold(n', k) == KnownToHold(m, k);
    }
    forall k | k > n'.commitIndex ensures !MayCommit(m, k) {
      if k <= last { CommittableMeans(m, k); }
    }
    if n'.commitIndex > n.commitIndex { CommittableMeans(m, n'.commitIndex); }
  }

  /** A refusal of a known peer, of no higher term, moves that peer's nextIndex and nothing
      else: behind the leader's last entry of the conflicting term if there is a conflicting
      term and the leader has it, and else to where the follower says, but not below 1. */
  lemma RefusalNoted(n: Node, follower: int, reply: AppendEntriesReply)
    requires n.role == Leader && follower in n.peers && !reply.success && reply.term <= n.currentTerm
    ensures var (n', accepted) := HandleAppendEntriesResponse(n, follower, reply);
      var p := PeerIndex(n.peers, follower);
      && !accepted && p >= 0 && n' == n.(nextIndex := n.nextIndex[p := n'.nextIndex[p]])
      && var next := n'.nextIndex[p];
      if reply.conflictTerm != -1 && Has(n.log, reply.conflictTerm)
      then 2 <= next <= |n.log| && n.log[next - 1].term == reply.conflictTerm
           && forall k :: next <= k < |n.log| ==> n.log[k].term != reply.conflictTerm
      else next == Max(reply.conflictIndex, 1)
  {
    var r := LastOfTerm(n.log, |n.log| - 1, reply.conflictTerm);
    assert Has(n.log, reply.conflictTerm) <==> r != -1;
  }

  ghost predicate Has(log: seq<LogEntry>, term: int) {
    exists k :: 1 <= k < |log| && log[k].term == term
  }

  lemma ReplyIgnored(n: Node, follower: int, reply: AppendEntriesReply)
    requires n.role != Leader || follower !in n.peers
    ensures HandleAppendEntriesResponse(n, follower, reply) == (n, false)
  {
  }

  // --- A restart ---

  /** Only term, vote and log survive, as they were last saved. */
  lemma Restarts(n: Node)
    ensures var n' := Restart(n);
      && n'.currentTerm == n.disk.term && n'.votedFor == n.disk.vote && n'.log == n.disk.log && OnDisk(n')
      && n'.role == Follower && n'.leaderId == -1 && n'.votesReceived == {} && n'.electionTerm == -1
      && n'.commitIndex == 0 && n'.lastApplied == 0 && n'.applied == [] && SameIdentity(n, n')
      && forall p :: 0 <= p < |n.peers| ==> n'.nextIndex[p] == 1 && n'.matchIndex[p] == 0
  {
  }
}
