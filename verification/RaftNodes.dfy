/**
 The node of src/raft/raft_node.cpp as the program keeps it: fields updated in place by
 handlers, each of which runs with the node's mutex held.  Every method is proved to compute
 the step of module RaftSpec that the cluster is made of.  Timers, the thread that calls
 PersistState and the commands clients wait for are not part of this model.
 */
module RaftNodes {
  import opened RaftLog
  import opened RaftSpec
  import Codecs

  /** What a node restored from this file would start from.  A file that is missing, empty
      or malformed is no file at all, and a log is never restored empty. */
  function Saved(file: string): (d: Disk)
    ensures |d.log| >= 1
  {
    match Codecs.DecodeState(file)
    case None => Disk(0, -1, [SENTINEL])
    case Some(d) => if d.log == [] then d.(log := [SENTINEL]) else d
  }

  /** A state file together with what it restores to. */
  datatype Text = Text(text: string, ghost disk: Disk)

  ghost predicate Restores(text: string, disk: Disk) {
    forall t: string :: t == text ==> Saved(t) == disk
  }

  type StateFile = f: Text | Restores(f.text, f.disk) && |f.disk.log| >= 1
    ghost witness Text("", Saved(""))

  /** The log when the merge loop has looked at the first i received entries, of which entry
      d is the first that the log before did not match. */
  function MergedTo(before: seq<LogEntry>, start: nat, entries: seq<LogEntry>, d: nat, i: nat): seq<LogEntry>
    requires i <= |entries| && (i <= d || start + d <= |before|)
  {
    if i <= d then before else before[..start + d] + Numbered(entries[d..i], start + d)
  }

  lemma NumberedNext(kept: seq<LogEntry>, entries: seq<LogEntry>, d: nat, i: nat, start: nat)
    requires d <= i < |entries| && |kept| == start + d
    ensures |kept + Numbered(entries[d..i], start + d)| == start + i
    ensures kept + Numbered(entries[d..i + 1], start + d)
            == kept + Numbered(entries[d..i], start + d) + [entries[i].(index := start + i)]
  {
    assert entries[d..i + 1] == entries[d..i] + [entries[i]];
    assert Numbered(entries[d..i + 1], start + d)
           == Numbered(entries[d..i], start + d) + [entries[i].(index := start + i)];
  }

  /** One round of the merge loop. */
  lemma MergeRound(before: seq<LogEntry>, start: nat, entries: seq<LogEntry>, d: nat, i: nat)
    requires start <= |before| && d == FirstDifference(before, start, entries) && i < |entries|
    ensures d < |entries| ==> start + d <= |before|
    ensures var log := MergedTo(before, start, entries, d, i);
      && start + i <= |log|
      && (i < d <==> start + i < |log| && log[start + i].term == entries[i].term)
      && MergedTo(before, start, entries, d, i + 1)
         == if i < d then log else log[..start + i] + [entries[i].(index := start + i)]
  {
    hide FirstDifference, Numbered;
    DifferenceAt(before, start, entries, i);
    AtDifference(before, start, entries);
    if i >= d {
      NumberedNext(before[..start + d], entries, d, i, start);
      assert entries[d..d] == [] && Numbered([], start + d) == [];
    }
  }

  lemma MergedEnds(before: seq<LogEntry>, start: nat, entries: seq<LogEntry>, d: nat)
    requires start <= |before| && d == FirstDifference(before, start, entries)
    ensures d <= |entries| && (d < |entries| ==> start + d <= |before|)
    ensures MergedTo(before, start, entries, d, 0) == before
    ensures MergedTo(before, start, entries, d, |entries|) == Merge(before, start, entries)
  {
    hide FirstDifference, Numbered;
    AtDifference(before, start, entries);
    assert entries[d..|entries|] == entries[d..];
  }

  class RaftNode {
    const nodeId: int
    const peerIds: seq<int>
    var currentTerm: int
    var votedFor: int
    var log: seq<LogEntry>
    var commitIndex: int
    var lastApplied: int
    var nextIndex: seq<int>
    var matchIndex: seq<int>
    var state: Role
    var leaderId: int
    var votesReceived: set<int>
    var electionTerm: int
    /** The state file as last written. */
    var file: StateFile
    /** The commands handed to the apply callback. */
    var applied: seq<string>

    ghost predicate Valid()
      reads this
    {
      && |log| >= 1 && commitIndex >= 0 && lastApplied >= 0
      && |nextIndex| == |peerIds| && |matchIndex| == |peerIds|
      && forall p :: 0 <= p < |nextIndex| ==> nextIndex[p] >= 1
    }

    ghost function Abs(): Node
      reads this
      requires Valid()
    {
      Node(nodeId, peerIds, currentTerm, votedFor, log, commitIndex, lastApplied, nextIndex, matchIndex,
           state, leaderId, votesReceived, electionTerm, file.disk, applied)
    }

    constructor (nodeId: int, peerIds: seq<int>, text: string)
      ensures Valid() && file.text == text
      ensures Abs() == NewNode(nodeId, peerIds).(disk := Saved(text))
    {
      this.nodeId, this.peerIds := nodeId, peerIds;
      currentTerm, votedFor, log := 0, -1, [SENTINEL];
      commitIndex, lastApplied := 0, 0;
      nextIndex, matchIndex := seq(|peerIds|, _ => 1), seq(|peerIds|, _ => 0);
      state, leaderId := Follower, -1;
      votesReceived, electionTerm := {}, -1;
      file, applied := Text(text, Saved(text)), [];
    }

    // --- Persistence ---

    method PersistState()
      requires Valid()
      modifies this`file
      ensures Valid() && file.disk == Disk(currentTerm, votedFor, log) && Abs() == Persist(old(Abs()))
    {
      var text := Codecs.SerializeState(currentTerm, votedFor, log);
      Codecs.StateRoundTrip(Disk(currentTerm, votedFor, log));
      file := Text(text, Disk(currentTerm, votedFor, log));
    }

    method RestoreState() returns (restored: bool)
      requires Valid()
      modifies this`currentTerm, this`votedFor, this`log
      ensures Valid() && restored == Codecs.DecodeState(file.text).Some?
      ensures restored ==> currentTerm == file.disk.term && votedFor == file.disk.vote
      ensures restored ==> log == if Codecs.DecodeState(file.text).value.log == [] then old(log) else file.disk.log
      ensures !restored ==> Abs() == old(Abs())
    {
      var loaded := Codecs.DeserializeState(file.text);
      assert Saved(file.text) == file.disk;
      if loaded.None? { return false; }
      currentTerm, votedFor := loaded.value.term, loaded.value.vote;
      if loaded.value.log != [] { log := loaded.value.log; }
      return true;
    }

    /** A crash and a restart: a new node reads the file that the old one left behind. */
    static method Reboot(n: RaftNode) returns (m: RaftNode)
      requires n.Valid()
      ensures fresh(m) && m.Valid() && m.Abs() == Restart(n.Abs())
    {
      assert Saved(n.file.text) == n.file.disk;
      m := new RaftNode(n.nodeId, n.peerIds, n.file.text);
      var restored := m.RestoreState();
    }

    // --- Elections ---

    function IsLogUpToDate(lastLogIndex: int, lastLogTerm: int): (r: bool)
      reads this
      ensures r == UpToDate(lastLogIndex, lastLogTerm, log)
    {
      var myLastLogIndex, myLastLogTerm := LastIndex(log), LastTerm(log);
      if lastLogTerm != myLastLogTerm then lastLogTerm > myLastLogTerm else lastLogIndex >= myLastLogIndex
    }

    method HandleRequestVote(args: RequestVoteArgs) returns (reply: RequestVoteReply)
      requires Valid()
      modifies this
      ensures Valid()
      ensures (Abs(), reply) == RaftSpec.HandleRequestVote(old(Abs()), args)
    {
      hide Saved, Restores;
      reply := RequestVoteReply(currentTerm, false);
      if args.term < currentTerm { return; }
      if args.term > currentTerm {
        electionTerm := -1;
        StepDownTo(args.term);
        reply := reply.(term := currentTerm);
      }
      var canVote := votedFor == -1 || votedFor == args.candidateId;
      if canVote && IsLogUpToDate(args.lastLogIndex, args.lastLogTerm) {
        votedFor := args.candidateId;
        reply := reply.(voteGranted := true);
        PersistState();
      }
    }

    /** What a vote request and both kinds of reply do when they carry a higher term. */
    method StepDownTo(term: int)
      requires Valid()
      modifies this
      ensures Valid()
      ensures Abs() == Demote(old(Abs()), term)
    {
      hide Saved, Restores;
      currentTerm, votedFor := term, -1;
      state, leaderId := Follower, -1;
      votesReceived := {};
      PersistState();
    }

    method StartElection()
      requires Valid()
      modifies this
      ensures Valid()
      ensures Abs() == RaftSpec.StartElection(old(Abs()))
    {
      hide Saved, Restores;
      state := Candidate;
      currentTerm := currentTerm + 1;
      votedFor := nodeId;
      leaderId := -1;
      PersistState();
      electionTerm := currentTerm;
      votesReceived := {};
      votesReceived := votesReceived + {nodeId};
    }

    method HandleVoteResponse(nodeId: int, reply: RequestVoteReply) returns (won: bool)
      requires Valid()
      modifies this
      ensures Valid()
      ensures (Abs(), won) == RaftSpec.HandleVoteResponse(old(Abs()), nodeId, reply)
    {
      hide Saved, Restores;
      if state != Candidate { return false; }
      if reply.term > currentTerm {
        StepDownTo(reply.term);
        return false;
      }
      if reply.term < electionTerm { return false; }
      if reply.voteGranted {
        votesReceived := votesReceived + {nodeId};
        var totalNodes := |peerIds| + 1;
        var majority := totalNodes / 2 + 1;
        if |votesReceived| >= majority {
          BecomeLeaderInternal();
          return true;
        }
      }
      return false;
    }

    method BecomeLeaderInternal()
      requires Valid()
      modifies this
      ensures Valid()
      ensures Abs() == BecomeLeader(old(Abs()))
    {
      hide Saved, Restores;
      state := Leader;
      leaderId := nodeId;
      votesReceived, electionTerm := {}, -1;
      ResetPeers(LastIndex(log));
    }

    method ResetPeers(lastLogIndex: int)
      requires |nextIndex| == |peerIds| && |matchIndex| == |peerIds|
      modifies this`nextIndex, this`matchIndex
      ensures nextIndex == seq(|peerIds|, _ => lastLogIndex + 1) && matchIndex == seq(|peerIds|, _ => 0)
    {
      for i := 0 to |peerIds|
        invariant |nextIndex| == |peerIds| && |matchIndex| == |peerIds|
        invariant forall p :: 0 <= p < i ==> nextIndex[p] == lastLogIndex + 1 && matchIndex[p] == 0
      {
        nextIndex := nextIndex[i := lastLogIndex + 1];
        matchIndex := matchIndex[i := 0];
      }
    }

    // --- The log of a leader ---

    method AppendLogEntry(command: string) returns (index: int)
      requires Valid()
      modifies this`log
      ensures Valid()
      ensures (Abs(), index) == AppendCommand(old(Abs()), command)
    {
      if state != Leader { return -1; }
      index := |log|;
      log := log + [LogEntry(currentTerm, command, index)];
    }

    method CreateAppendEntriesArgs(nodeIndex: int) returns (args: AppendRequestArgs)
      requires Valid()
      ensures args == MakeAppendEntries(Abs(), nodeIndex)
    {
      if state != Leader || nodeIndex < 0 || nodeIndex >= |peerIds| { return AppendEntriesArgs(0, 0, 0, 0, [], 0); }
      var next := nextIndex[nodeIndex];
      var prevLogIndex := next - 1;
      var prevLogTerm := if prevLogIndex > 0 && prevLogIndex < |log| then log[prevLogIndex].term else 0;
      var entries := [];
      var i := next;
      while i < |log|
        invariant next <= i && (i <= |log| || i == next)
        invariant entries == if next <= |log| then log[next..i] else []
      {
        assert log[next..i + 1] == log[next..i] + [log[i]];
        entries := entries + [log[i]];
        i := i + 1;
      }
      assert next < |log| ==> log[next..|log|] == log[next..];
      return AppendEntriesArgs(currentTerm, nodeId, prevLogIndex, prevLogTerm, entries, commitIndex);
    }

    // --- Receiving entries ---

    /** Walks back to the first entry of the conflicting term. */
    method FindConflictIndex(prevLogIndex: nat) returns (conflictIndex: nat)
      requires Valid() && prevLogIndex < |log|
      ensures conflictIndex == ConflictStart(log, prevLogIndex)
    {
      conflictIndex := prevLogIndex;
      while conflictIndex > 1 && log[conflictIndex - 1].term == log[prevLogIndex].term
        invariant conflictIndex <= prevLogIndex && log[conflictIndex].term == log[prevLogIndex].term
        invariant ConflictStart(log, prevLogIndex) == ConflictStart(log, conflictIndex)
      {
        conflictIndex := conflictIndex - 1;
      }
    }

    /** The merge loop: keep what matches, cut the log at the first conflict, append the rest. */
    method MergeEntries(prevLogIndex: nat, entries: seq<LogEntry>) returns (logModified: bool)
      requires prevLogIndex < |log|
      modifies this`log
      ensures log == Merge(old(log), prevLogIndex + 1, entries)
      ensures logModified == (FirstDifference(old(log), prevLogIndex + 1, entries) < |entries|)
    {
      hide FirstDifference, Numbered, MergedTo, Merge;
      var logIndex := prevLogIndex + 1;
      logModified := false;
      ghost var before, d := log, FirstDifference(log, logIndex, entries);
      MergedEnds(log, logIndex, entries, d);
      for i := 0 to |entries|
        invariant logModified == (i > d)
        invariant log == MergedTo(before, logIndex, entries, d, i)
      {
        var currentIndex := logIndex + i;
        MergeRound(before, logIndex, entries, d, i);
        if currentIndex < |log| {
          if log[currentIndex].term != entries[i].term {
            log := log[..currentIndex];
            log := log + [entries[i].(index := currentIndex)];
            logModified := true;
          }
        } else {
          log := log + [entries[i].(index := currentIndex)];
          logModified := true;
        }
      }
    }

    method ApplyCommittedEntriesInternal()
      requires Valid()
      modifies this`lastApplied, this`applied
      ensures Valid()
      ensures Abs() == ApplyCommitted(old(Abs()))
    {
      hide Saved, Restores;
      ghost var from := lastApplied + 1;
      while lastApplied < commitIndex
        invariant from - 1 <= lastApplied && (lastApplied <= commitIndex || lastApplied == from - 1)
        invariant applied == old(applied) + Commands(log, from, Min(lastApplied + 1, |log|))
      {
        lastApplied := lastApplied + 1;
        if lastApplied < |log| {
          applied := applied + [log[lastApplied].command];
        }
      }
    }

    method HandleAppendEntries(args: AppendRequestArgs) returns (reply: AppendEntriesReply)
      requires Valid()
      modifies this
      ensures Valid()
      ensures (Abs(), reply) == RaftSpec.HandleAppendEntries(old(Abs()), args)
    {
      hide Saved, Restores;
      reply := AppendEntriesReply(currentTerm, false, -1, -1);
      if args.term < currentTerm { return; }
      RecogniseLeader(args.term, args.leaderId);
      reply := reply.(term := currentTerm);
      if args.prevLogIndex > 0 {
        if args.prevLogIndex >= |log| {
          reply := reply.(conflictIndex := |log|, conflictTerm := -1);
          return;
        }
        if log[args.prevLogIndex].term != args.prevLogTerm {
          var conflictIndex := FindConflictIndex(args.prevLogIndex);
          reply := reply.(conflictTerm := log[args.prevLogIndex].term, conflictIndex := conflictIndex);
          return;
        }
      }
      StoreEntries(args.prevLogIndex, args.entries);
      if args.leaderCommit > commitIndex {
        commitIndex := Min(args.leaderCommit, LastIndex(log));
        ApplyCommittedEntriesInternal();
      }
      reply := reply.(success := true);
    }

    method RecogniseLeader(term: int, leaderId: int)
      requires Valid()
      modifies this
      ensures Valid()
      ensures Abs() == MeetLeader(old(Abs()), term, leaderId)
    {
      hide Saved, Restores, Persist;
      currentTerm := term;
      if state != Follower {
        state, votedFor := Follower, -1;
        votesReceived, electionTerm := {}, -1;
      }
      this.leaderId := leaderId;
      PersistState();
    }

    method StoreEntries(prevLogIndex: nat, entries: seq<LogEntry>)
      requires Valid() && prevLogIndex < |log|
      modifies this`log, this`file
      ensures Valid()
      ensures Abs() == Store(old(Abs()), prevLogIndex, entries)
    {
      hide Saved, Restores;
      var logModified := MergeEntries(prevLogIndex, entries);
      if logModified { PersistState(); }
    }

    // --- Counting replicas ---

    method FindPeer(id: int) returns (nodeIndex: int)
      ensures nodeIndex == PeerIndex(peerIds, id)
    {
      nodeIndex := -1;
      for i := 0 to |peerIds|
        invariant nodeIndex == -1
        invariant PeerIndex(peerIds, id)
                  == if PeerIndex(peerIds[i..], id) == -1 then -1 else i + PeerIndex(peerIds[i..], id)
      {
        assert peerIds[i..][1..] == peerIds[i + 1..];
        if peerIds[i] == id { return i; }
      }
    }

    method CountReplicas(index: int) returns (replicatedCount: int)
      requires Valid()
      ensures replicatedCount == 1 + CountAtLeast(matchIndex, index)
    {
      replicatedCount := 1;
      for i := 0 to |matchIndex|
        invariant replicatedCount == 1 + CountAtLeast(matchIndex[..i], index)
      {
        assert matchIndex[..i + 1][..i] == matchIndex[..i];
        if matchIndex[i] >= index { replicatedCount := replicatedCount + 1; }
      }
      assert matchIndex[..|matchIndex|] == matchIndex;
    }

    method UpdateCommitIndex()
      requires Valid()
      modifies this`commitIndex
      ensures Valid()
      ensures Abs() == RaftSpec.UpdateCommitIndex(old(Abs()))
    {
      if state != Leader { return; }
      var lastLogIndex := LastIndex(log);
      var totalNodes := |peerIds| + 1;
      var majority := totalNodes / 2 + 1;
      var index := lastLogIndex;
      while index > commitIndex
        invariant index < |log| && commitIndex == old(commitIndex)
        invariant HighestCommittable(old(Abs()), lastLogIndex) == HighestCommittable(old(Abs()), index)
        decreases index
      {
        if log[index].term == currentTerm {
          var replicatedCount := CountReplicas(index);
          if replicatedCount >= majority {
            commitIndex := index;
            break;
          }
        }
        index := index - 1;
      }
    }

    /** Scans down for the last entry of a term. */
    method FindLastOfTerm(term: int) returns (last: int)
      requires Valid()
      ensures last == LastOfTerm(log, |log| - 1, term)
    {
      last := -1;
      var i := LastIndex(log);
      while i >= 1
        invariant i < |log| && last == -1
        invariant LastOfTerm(log, |log| - 1, term) == LastOfTerm(log, i, term)
      {
        if log[i].term == term { return i; }
        i := i - 1;
      }
    }

    method HandleAppendEntriesResponse(nodeId: int, reply: AppendEntriesReply) returns (accepted: bool)
      requires Valid()
      modifies this
      ensures Valid()
      ensures (Abs(), accepted) == RaftSpec.HandleAppendEntriesResponse(old(Abs()), nodeId, reply)
    {
      hide Saved, Restores;
      if state != Leader { return false; }
      var nodeIndex := FindPeer(nodeId);
      if nodeIndex == -1 { return false; }
      if reply.term > currentTerm {
        StepDownTo(reply.term);
        return false;
      }
      if reply.success {
        var expectedMatchIndex := LastIndex(log);
        matchIndex := matchIndex[nodeIndex := expectedMatchIndex];
        nextIndex := nextIndex[nodeIndex := expectedMatchIndex + 1];
        UpdateCommitIndex();
        return true;
      }
      var next := reply.conflictIndex;
      if reply.conflictTerm != -1 {
        var conflictTermLastIndex := FindLastOfTerm(reply.conflictTerm);
        if conflictTermLastIndex != -1 { next := conflictTermLastIndex + 1; }
      }
      if next < 1 { next := 1; }
      nextIndex := nextIndex[nodeIndex := next];
      return false;
    }
  }
}
