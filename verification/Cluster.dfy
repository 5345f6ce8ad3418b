/**
 A cluster of nodes over an unreliable network.  The network is the set of all packets
 ever sent: a packet may be delivered never, late, out of order or many times.  Every
 event below is one critical section of the program (the node's mutex is held) together
 with the packet it sends.

 The history records, for the proofs, what happened: it is written by steps and never
 read by a node.
 */
module Cluster {
  import opened RaftLog
  import opened RaftSpec

  /** A reply travels inside the remote call that asked for it, so it is delivered to the
      requester together with the voter's or follower's id and the request itself. */
  datatype Packet =
    | VoteRequest(src: int, dst: int, ask: RequestVoteArgs)
    | VoteReply(src: int, dst: int, vote: RequestVoteReply)
    | AppendRequest(src: int, dst: int, args: AppendRequestArgs)
    | AppendReply(src: int, dst: int, reply: AppendEntriesReply, request: AppendRequestArgs)

  // --- History ---

  datatype VoteKey = VoteKey(voter: int, term: int, candidate: int)
  /** The voter's log when it voted, and the last entry the candidate claimed. */
  datatype Ballot = Ballot(log: seq<LogEntry>, lastIndex: int, lastTerm: int)
  /** base is the length of the leader's log when it was elected. */
  datatype Election = Election(leader: int, quorum: set<int>, base: nat)
  datatype AckKey = AckKey(node: int, term: int)
  /** The leader of the term committed the first length entries of its log. */
  datatype Commit = Commit(term: int, length: nat, quorum: set<int>)

  datatype History = History(
    elections: map<int, Election>,
    logs: map<int, seq<LogEntry>>,
    votes: map<VoteKey, Ballot>,
    acks: map<AckKey, nat>,
    commits: set<Commit>)

  datatype Cluster = Cluster(nodes: map<int, Node>, net: set<Packet>, history: History)

  function RecordVote(h: History, key: VoteKey, ballot: Ballot): History {
    if key in h.votes then h else h.(votes := h.votes[key := ballot])
  }

  function RecordAck(h: History, key: AckKey, length: nat): History {
    if key in h.acks && h.acks[key] >= length then h else h.(acks := h.acks[key := length])
  }

  function RecordElection(h: History, before: Node, voter: int): History {
    h.(elections :=
         h.elections[before.currentTerm := Election(before.id, before.votesReceived + {voter}, |before.log|)],
       logs := h.logs[before.currentTerm := before.log])
  }

  function RecordAppend(h: History, after: Node): History {
    h.(logs := h.logs[after.currentTerm := after.log])
  }

  /** The peers whose value reaches k. */
  function Matched(peers: seq<int>, values: seq<int>, k: int): set<int>
    requires |peers| == |values|
  {
    set p | 0 <= p < |peers| && values[p] >= k :: peers[p]
  }

  /** The leader and the peers whose matchIndex reaches k. */
  function Holders(n: Node, k: int): set<int> {
    {n.id} + Matched(n.peers, n.matchIndex, k)
  }

  /** A leader that commits thereby acknowledges its own entries up to there. */
  function RecordCommit(h: History, before: Node, after: Node): History {
    if after.commitIndex <= before.commitIndex then h
    else
      var length := after.commitIndex + 1;
      RecordAck(h.(commits := h.commits + {Commit(after.currentTerm, length, Holders(after, after.commitIndex))}),
                AckKey(after.id, after.currentTerm), length)
  }

  // --- Events ---

  datatype Event =
    | Timeout(i: int)
    | SendVoteRequest(i: int, to: int, term: int, lastIndex: int, lastTerm: int)
    | DeliverVoteRequest(p: Packet)
    | DeliverVoteReply(p: Packet)
    | ClientAppend(i: int, command: string)
    | SendAppend(i: int, peer: nat)
    | DeliverAppend(p: Packet)
    | DeliverAppendReply(p: Packet)
    | Apply(i: int)
    | Save(i: int)
    | Crash(i: int)
    | CrashInVote(p: Packet)
    | CrashInAppend(p: Packet)

  predicate Arriving(s: Cluster, p: Packet) {
    p in s.net && p.dst in s.nodes
  }

  /** What may happen in s.  The server reads the fields of a vote request one getter at a
      time, so a request may mix values of different moments; only when the node is still
      a candidate of the term it read are the log values known to be its current ones. */
  predicate Enabled(s: Cluster, e: Event) {
    match e
    case Timeout(i) => i in s.nodes
    case SendVoteRequest(i, to, term, lastIndex, lastTerm) =>
      && i in s.nodes && to in s.nodes[i].peers
      && 1 <= term <= s.nodes[i].currentTerm
      && (s.nodes[i].role == Candidate && s.nodes[i].currentTerm == term ==>
            lastIndex == LastIndex(s.nodes[i].log) && lastTerm == LastTerm(s.nodes[i].log))
    case DeliverVoteRequest(p) => Arriving(s, p) && p.VoteRequest?
    case DeliverVoteReply(p) => Arriving(s, p) && p.VoteReply?
    case ClientAppend(i, _) => i in s.nodes
    case SendAppend(i, peer) => i in s.nodes && peer < |s.nodes[i].peers|
    case DeliverAppend(p) => Arriving(s, p) && p.AppendRequest?
    case DeliverAppendReply(p) => Arriving(s, p) && p.AppendReply?
    case Apply(i) => i in s.nodes
    case Save(i) => i in s.nodes
    case Crash(i) => i in s.nodes
    case CrashInVote(p) => Arriving(s, p) && p.VoteRequest? && p.ask.term > s.nodes[p.dst].currentTerm
    case CrashInAppend(p) => Arriving(s, p) && p.AppendRequest? && p.args.term >= s.nodes[p.dst].currentTerm
  }

  function OnTimeout(s: Cluster, i: int): Cluster
    requires i in s.nodes
  {
    var n := StartElection(s.nodes[i]);
    s.(nodes := s.nodes[i := n],
       history := RecordVote(s.history, VoteKey(i, n.currentTerm, i), Ballot(n.log, LastIndex(n.log), LastTerm(n.log))))
  }

  function OnVoteRequest(s: Cluster, p: Packet): Cluster
    requires Arriving(s, p) && p.VoteRequest?
  {
    var (n, reply) := HandleRequestVote(s.nodes[p.dst], p.ask);
    s.(nodes := s.nodes[p.dst := n],
       net := s.net + {VoteReply(p.dst, p.src, reply)},
       history := if reply.voteGranted
                  then RecordVote(s.history, VoteKey(p.dst, reply.term, p.ask.candidateId),
                                  Ballot(n.log, p.ask.lastLogIndex, p.ask.lastLogTerm))
                  else s.history)
  }

  function OnVoteReply(s: Cluster, p: Packet): Cluster
    requires Arriving(s, p) && p.VoteReply?
  {
    var (n, won) := HandleVoteResponse(s.nodes[p.dst], p.src, p.vote);
    s.(nodes := s.nodes[p.dst := n],
       history := if won then RecordElection(s.history, s.nodes[p.dst], p.src) else s.history)
  }

  function OnCommand(s: Cluster, i: int, command: string): Cluster
    requires i in s.nodes
  {
    var (n, index) := AppendCommand(s.nodes[i], command);
    s.(nodes := s.nodes[i := n],
       history := if index != -1 then RecordAppend(s.history, n) else s.history)
  }

  function OnAppend(s: Cluster, p: Packet): Cluster
    requires Arriving(s, p) && p.AppendRequest?
  {
    var (n, reply) := HandleAppendEntries(s.nodes[p.dst], p.args);
    s.(nodes := s.nodes[p.dst := n],
       net := s.net + {AppendReply(p.dst, p.src, reply, p.args)},
       history := if reply.success && p.args.term >= 1
                  then RecordAck(s.history, AckKey(p.dst, p.args.term), p.args.prevLogIndex + |p.args.entries| + 1)
                  else s.history)
  }

  function OnAppendReply(s: Cluster, p: Packet): Cluster
    requires Arriving(s, p) && p.AppendReply?
  {
    var (n, _) := HandleAppendEntriesResponse(s.nodes[p.dst], p.src, p.reply);
    s.(nodes := s.nodes[p.dst := n], history := RecordCommit(s.history, s.nodes[p.dst], n))
  }

  function Send(s: Cluster, p: Packet): Cluster {
    s.(net := s.net + {p})
  }

  function Become(s: Cluster, i: int, n: Node): Cluster {
    s.(nodes := s.nodes[i := n])
  }

  function Step(s: Cluster, e: Event): Cluster
    requires Enabled(s, e)
  {
    match e
    case Timeout(i) => OnTimeout(s, i)
    case SendVoteRequest(i, to, term, lastIndex, lastTerm) =>
      Send(s, VoteRequest(i, to, RequestVoteArgs(term, i, lastIndex, lastTerm)))
    case DeliverVoteRequest(p) => OnVoteRequest(s, p)
    case DeliverVoteReply(p) => OnVoteReply(s, p)
    case ClientAppend(i, command) => OnCommand(s, i, command)
    case SendAppend(i, peer) =>
      Send(s, AppendRequest(i, s.nodes[i].peers[peer], MakeAppendEntries(s.nodes[i], peer)))
    case DeliverAppend(p) => OnAppend(s, p)
    case DeliverAppendReply(p) => OnAppendReply(s, p)
    case Apply(i) => Become(s, i, ApplyCommitted(s.nodes[i]))
    case Save(i) => Become(s, i, Persist(s.nodes[i]))
    case Crash(i) => Become(s, i, Restart(s.nodes[i]))
    // A handler that saves twice can die between its two saves.
    case CrashInVote(p) => Become(s, p.dst, Restart(StepDown(s.nodes[p.dst], p.ask.term)))
    case CrashInAppend(p) => Become(s, p.dst, Restart(MeetLeader(s.nodes[p.dst], p.args.term, p.args.leaderId)))
  }

  // --- Runs ---

  ghost predicate Distinct(s: seq<int>) {
    forall a, b :: 0 <= a < b < |s| ==> s[a] != s[b]
  }

  ghost predicate NodeStart(s: Cluster, i: int)
    requires i in s.nodes
  {
    && i >= 0
    && s.nodes[i] == NewNode(i, s.nodes[i].peers)
    && Distinct(s.nodes[i].peers)
    && (set q | q in s.nodes[i].peers) == s.nodes.Keys - {i}
  }

  /** A fresh cluster of at least two nodes with non-negative ids, each knowing the others. */
  ghost predicate Init(s: Cluster) {
    && |s.nodes| >= 2
    && (forall i :: i in s.nodes ==> NodeStart(s, i))
    && s.net == {}
    && s.history == History(map[], map[], map[], map[], {})
  }

  ghost predicate StepAt(states: seq<Cluster>, events: seq<Event>, k: nat)
    requires k < |events| < |states|
  {
    Enabled(states[k], events[k]) && states[k + 1] == Step(states[k], events[k])
  }

  ghost predicate IsRun(states: seq<Cluster>, events: seq<Event>) {
    && |states| == |events| + 1
    && Init(states[0])
    && forall k :: 0 <= k < |events| ==> StepAt(states, events, k)
  }

  /** The two things the program leaves to luck, as a condition on the next event: a leader
      acts on a success reply only if the request was made in its present term and reached
      the present end of its log; and a leader crashes only when what it believes committed
      is on its disk.  Entries it has not committed may be lost. */
  predicate Careful(s: Cluster, e: Event)
    requires Enabled(s, e)
  {
    match e
    case DeliverAppendReply(p) =>
      var n := s.nodes[p.dst];
      n.role == Leader && p.reply.success && p.reply.term <= n.currentTerm ==>
        p.request.term == n.currentTerm && p.request.prevLogIndex + |p.request.entries| == LastIndex(n.log)
    case Crash(i) => s.nodes[i].role == Leader ==> s.nodes[i].commitIndex < |s.nodes[i].disk.log|
    case _ => true
  }

  ghost predicate CarefulAt(states: seq<Cluster>, events: seq<Event>, k: nat)
    requires k < |events| < |states|
  {
    Enabled(states[k], events[k]) && Careful(states[k], events[k])
  }

  ghost predicate IsCarefulRun(states: seq<Cluster>, events: seq<Event>) {
    && IsRun(states, events)
    && forall k :: 0 <= k < |events| ==> CarefulAt(states, events, k)
  }
}
