/**
 One node as a value, and what each handler of src/raft/raft_node.cpp does to it.
 Module RaftNodes holds the imperative class whose methods are proved to compute
 these functions; the cluster is built from them.
 */
module RaftSpec {
  import opened RaftLog

  datatype Role = Follower | Candidate | Leader

  /** What the persister last saved.  A node that never saved counts as having saved
      its initial state: restoring either gives the same node. */
  datatype Disk = Disk(term: int, vote: int, log: seq<LogEntry>)

  datatype NodeRecord = Node(
    id: int, peers: seq<int>,
    currentTerm: int, votedFor: int, log: seq<LogEntry>,
    commitIndex: int, lastApplied: int,
    nextIndex: seq<int>, matchIndex: seq<int>,
    role: Role, leaderId: int,
    votesReceived: set<int>, electionTerm: int,
    disk: Disk, applied: seq<string>)
  {
    ghost predicate Shaped() {
      && |log| >= 1 && |disk.log| >= 1
      && commitIndex >= 0 && lastApplied >= 0
      && |nextIndex| == |peers| && |matchIndex| == |peers|
      && forall p :: 0 <= p < |nextIndex| ==> nextIndex[p] >= 1
    }
  }

  ghost const SomeNode: NodeRecord :=
    Node(0, [], 0, -1, [SENTINEL], 0, 0, [], [], Follower, -1, {}, -1, Disk(0, -1, [SENTINEL]), [])

  type Node = n: NodeRecord | n.Shaped() ghost witness SomeNode

  function NewNode(id: int, peers: seq<int>): Node {
    Node(id, peers, 0, -1, [SENTINEL], 0, 0,
         seq(|peers|, _ => 1), seq(|peers|, _ => 0),
         Follower, -1, {}, -1, Disk(0, -1, [SENTINEL]), [])
  }

  function Majority(n: Node): int {
    (|n.peers| + 1) / 2 + 1
  }

  function Persist(n: Node): Node {
    n.(disk := Disk(n.currentTerm, n.votedFor, n.log))
  }

  /** The constructor followed by restoreState. */
  function Restart(n: Node): Node {
    NewNode(n.id, n.peers).(currentTerm := n.disk.term, votedFor := n.disk.vote, log := n.disk.log, disk := n.disk)
  }

  /** A reply with a higher term demotes a candidate or a leader; this path leaves electionTerm alone. */
  function Demote(n: Node, term: int): Node {
    Persist(n.(currentTerm := term, votedFor := -1, role := Follower, leaderId := -1, votesReceived := {}))
  }

  /** A vote request with a higher term also clears electionTerm. */
  function StepDown(n: Node, term: int): Node {
    Demote(n.(electionTerm := -1), term)
  }

  function StartElection(n: Node): Node {
    Persist(n.(role := Candidate, currentTerm := n.currentTerm + 1, votedFor := n.id, leaderId := -1))
    .(electionTerm := n.currentTerm + 1, votesReceived := {n.id})
  }

  predicate UpToDate(lastLogIndex: int, lastLogTerm: int, log: seq<LogEntry>) {
    if lastLogTerm != LastTerm(log) then lastLogTerm > LastTerm(log) else lastLogIndex >= LastIndex(log)
  }

  /** The node as a vote request finds it once its term has been looked at. */
  function MeetTerm(n: Node, term: int): Node {
    if term > n.currentTerm then StepDown(n, term) else n
  }

  function HandleRequestVote(n: Node, args: RequestVoteArgs): (Node, RequestVoteReply) {
    if args.term < n.currentTerm then (n, RequestVoteReply(n.currentTerm, false))
    else
      var m := MeetTerm(n, args.term);
      if (m.votedFor == -1 || m.votedFor == args.candidateId) && UpToDate(args.lastLogIndex, args.lastLogTerm, m.log)
      then (Persist(m.(votedFor := args.candidateId)), RequestVoteReply(args.term, true))
      else (m, RequestVoteReply(args.term, false))
  }

  function BecomeLeader(n: Node): Node {
    n.(role := Leader, leaderId := n.id, votesReceived := {}, electionTerm := -1,
       nextIndex := seq(|n.peers|, _ => LastIndex(n.log) + 1), matchIndex := seq(|n.peers|, _ => 0))
  }

  function HandleVoteResponse(n: Node, voter: int, reply: RequestVoteReply): (Node, bool) {
    if n.role != Candidate then (n, false)
    else if reply.term > n.currentTerm then (Demote(n, reply.term), false)
    else if reply.term < n.electionTerm then (n, false)
    else if !reply.voteGranted then (n, false)
    else
      var m := n.(votesReceived := n.votesReceived + {voter});
      if |m.votesReceived| >= Majority(m) then (BecomeLeader(m), true) else (m, false)
  }

  function AppendCommand(n: Node, command: string): (Node, int) {
    if n.role != Leader then (n, -1)
    else (n.(log := n.log + [LogEntry(n.currentTerm, command, |n.log|)]), |n.log|)
  }

  function MakeAppendEntries(n: Node, p: int): AppendRequestArgs {
    if n.role != Leader || p < 0 || p >= |n.peers| then AppendEntriesArgs(0, 0, 0, 0, [], 0)
    else
      var prev := n.nextIndex[p] - 1;
      AppendEntriesArgs(n.currentTerm, n.id, prev,
                        if 0 < prev < |n.log| then n.log[prev].term else 0,
                        if prev + 1 < |n.log| then n.log[prev + 1..] else [],
                        n.commitIndex)
  }

  function Min(a: int, b: int): int {
    if a <= b then a else b
  }

  function ApplyCommitted(n: Node): Node {
    if n.lastApplied >= n.commitIndex then n
    else n.(lastApplied := n.commitIndex,
            applied := n.applied + Commands(n.log, n.lastApplied + 1, Min(n.commitIndex + 1, |n.log|)))
  }

  /** The node after a request of a term at least its own has been recognised.  A candidate
      or leader also forgets its vote here, even when its term does not change. */
  function MeetLeader(n: Node, term: int, leaderId: int): Node {
    var m := if n.role == Follower then n
             else n.(role := Follower, votedFor := -1, votesReceived := {}, electionTerm := -1);
    Persist(m.(currentTerm := term, leaderId := leaderId))
  }

  predicate Matches(log: seq<LogEntry>, prevLogIndex: nat, prevLogTerm: int) {
    prevLogIndex == 0 || (prevLogIndex < |log| && log[prevLogIndex].term == prevLogTerm)
  }

  function Store(n: Node, prevLogIndex: nat, entries: seq<LogEntry>): Node
    requires prevLogIndex < |n.log|
  {
    if FirstDifference(n.log, prevLogIndex + 1, entries) == |entries| then n
    else
      var log := Merge(n.log, prevLogIndex + 1, entries);
      Persist(n.(log := log))
  }

  function CommitTo(n: Node, leaderCommit: int): Node {
    if leaderCommit > n.commitIndex
    then ApplyCommitted(n.(commitIndex := Min(leaderCommit, LastIndex(n.log))))
    else n
  }

  function HandleAppendEntries(n: Node, args: AppendRequestArgs): (Node, AppendEntriesReply) {
    if args.term < n.currentTerm then (n, AppendEntriesReply(n.currentTerm, false, -1, -1))
    else
      var m := MeetLeader(n, args.term, args.leaderId);
      if args.prevLogIndex > 0 && args.prevLogIndex >= |m.log|
      then (m, AppendEntriesReply(args.term, false, |m.log|, -1))
      else if !Matches(m.log, args.prevLogIndex, args.prevLogTerm)
      then (m, AppendEntriesReply(args.term, false, ConflictStart(m.log, args.prevLogIndex),
                                  m.log[args.prevLogIndex].term))
      else (CommitTo(Store(m, args.prevLogIndex, args.entries), args.leaderCommit),
            AppendEntriesReply(args.term, true, -1, -1))
  }

  function PeerIndex(peers: seq<int>, id: int): (p: int)
    ensures -1 <= p < |peers|
    ensures p >= 0 ==> peers[p] == id && forall q :: 0 <= q < p ==> peers[q] != id
    ensures p == -1 ==> id !in peers
  {
    if peers == [] then -1
    else if peers[0] == id then 0
    else
      var q := PeerIndex(peers[1..], id);
      if q == -1 then -1 else q + 1
  }

  /** How many nodes are known to hold position k: the leader and every peer matched that far. */
  function CountAtLeast(values: seq<int>, k: int): (c: nat)
    ensures c <= |values|
  {
    if values == [] then 0
    else CountAtLeast(values[..|values| - 1], k) + if values[|values| - 1] >= k then 1 else 0
  }

  predicate Committable(n: Node, k: int)
    requires 0 <= k < |n.log|
  {
    n.log[k].term == n.currentTerm && 1 + CountAtLeast(n.matchIndex, k) >= Majority(n)
  }

  /** The largest committable position in commitIndex + 1 .. k, or commitIndex. */
  function HighestCommittable(n: Node, k: int): (r: int)
    requires k < |n.log|
    ensures r == n.commitIndex || n.commitIndex < r <= k
    decreases k
  {
    if k <= n.commitIndex then n.commitIndex
    else if Committable(n, k) then k
    else HighestCommittable(n, k - 1)
  }

  /** The scan finds a committable position if there is one, and then the highest. */
  lemma {:induction false} ScanFindsHighest(n: Node, k: int)
    requires k < |n.log|
    ensures var r := HighestCommittable(n, k);
      && (r > n.commitIndex ==> Committable(n, r))
      && forall j :: r < j <= k && n.commitIndex < j ==> !Committable(n, j)
    decreases k
  {
    if k > n.commitIndex && !Committable(n, k) { ScanFindsHighest(n, k - 1); }
  }

  function UpdateCommitIndex(n: Node): Node {
    if n.role != Leader then n else n.(commitIndex := HighestCommittable(n, LastIndex(n.log)))
  }

  /** nextIndex after a rejected request. */
  function BackOff(log: seq<LogEntry>, reply: AppendEntriesReply): (next: int)
    requires |log| >= 1
    ensures next >= 1
  {
    var raw :=
      if reply.conflictTerm == -1 then reply.conflictIndex
      else
        var last := LastOfTerm(log, |log| - 1, reply.conflictTerm);
        if last != -1 then last + 1 else reply.conflictIndex;
    if raw < 1 then 1 else raw
  }

  function HandleAppendEntriesResponse(n: Node, follower: int, reply: AppendEntriesReply): (Node, bool) {
    var p := PeerIndex(n.peers, follower);
    if n.role != Leader || p == -1 then (n, false)
    else if reply.term > n.currentTerm then (Demote(n, reply.term), false)
    else if reply.success then
      var last := LastIndex(n.log);
      (UpdateCommitIndex(n.(matchIndex := n.matchIndex[p := last], nextIndex := n.nextIndex[p := last + 1])), true)
    else (n.(nextIndex := n.nextIndex[p := BackOff(n.log, reply)]), false)
  }
}
