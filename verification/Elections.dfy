/**
 Elections over whole runs: one leader for each term, and what becomes of terms and votes.
 The usual rule, one vote for each term, is not what the program keeps; what it keeps is
 enough for Election Safety.
 */
module Elections {
  import opened RaftLog
  import opened RaftSpec
  import opened Cluster
  import opened ElectionSafety
  import opened Scenarios

  /** Election Safety: over any run, two nodes that lead in the same term are the same node. */
  lemma AtMostOneLeader(states: seq<Cluster>, events: seq<Event>, a: nat, b: nat, i: int, j: int)
    requires IsRun(states, events) && a < |states| && b < |states|
    requires i in states[a].nodes && j in states[b].nodes
    requires states[a].nodes[i].role == Leader && states[b].nodes[j].role == Leader
    requires states[a].nodes[i].currentTerm == states[b].nodes[j].currentTerm
    ensures i == j
  {
    RunElectionInv(states, events, a);
    RunElectionInv(states, events, b);
    assert NodeOk(states[a], i) && NodeOk(states[b], j);
    if a <= b {
      RunGrows(states, events, a, b);
    } else {
      RunGrows(states, events, b, a);
    }
  }

  /** What a node's term, vote and disk may do in one step, whatever the step, crashes included. */
  ghost predicate TermAndVoteKept(h: History, n: Node, n': Node, i: int) {
    && n'.currentTerm >= n.currentTerm && DiskOk(n')
    && (n'.currentTerm == n.currentTerm && n.votedFor != -1 && n'.votedFor != n.votedFor ==>
          && n'.votedFor == -1
          && n.currentTerm in h.elections
          && i !in h.elections[n.currentTerm].quorum)
  }

  lemma VoteRequestKeeps(s: Cluster, p: Packet)
    requires ElectionInv(s) && Arriving(s, p) && p.VoteRequest?
    ensures TermAndVoteKept(s.history, s.nodes[p.dst], HandleRequestVote(s.nodes[p.dst], p.ask).0, p.dst)
  {
    hide HandleRequestVote;
    assert NodeOk(s, p.dst);
    RequestVoteEffect(s.nodes[p.dst], p.ask);
  }

  lemma VoteReplyKeeps(s: Cluster, p: Packet)
    requires ElectionInv(s) && Arriving(s, p) && p.VoteReply?
    ensures TermAndVoteKept(s.history, s.nodes[p.dst], HandleVoteResponse(s.nodes[p.dst], p.src, p.vote).0, p.dst)
  {
    hide HandleVoteResponse;
    assert NodeOk(s, p.dst);
    VoteResponseEffect(s.nodes[p.dst], p.src, p.vote);
  }

  lemma AppendReplyKeeps(s: Cluster, p: Packet)
    requires ElectionInv(s) && Arriving(s, p) && p.AppendReply?
    ensures TermAndVoteKept(s.history, s.nodes[p.dst],
                            HandleAppendEntriesResponse(s.nodes[p.dst], p.src, p.reply).0, p.dst)
  {
    hide HandleAppendEntriesResponse;
    assert NodeOk(s, p.dst);
    AppendResponseEffect(s.nodes[p.dst], p.src, p.reply);
  }

  /** A request of the node's own term clears a vote only where it cannot be final. */
  lemma MeetLeaderKeeps(s: Cluster, p: Packet)
    requires ElectionInv(s) && Arriving(s, p) && p.AppendRequest? && p.args.term >= s.nodes[p.dst].currentTerm
    ensures var m := MeetLeader(s.nodes[p.dst], p.args.term, p.args.leaderId);
      && TermAndVoteKept(s.history, s.nodes[p.dst], m, p.dst)
      && TermAndVoteKept(s.history, s.nodes[p.dst], Restart(m), p.dst)
  {
    assert NodeOk(s, p.dst);
    if p.args.term == s.nodes[p.dst].currentTerm && Final(s.history, p.dst, p.args.term) {
      FinalVotersFollow(s, p);
    }
  }

  /** Answering a request leaves the vote as recognising the leader left it. */
  lemma AnswerKeepsVote(n: Node, args: AppendRequestArgs)
    requires args.term >= n.currentTerm && DiskOk(n)
    ensures HandleAppendEntries(n, args).0.votedFor == MeetLeader(n, args.term, args.leaderId).votedFor
  {
    var m := MeetLeader(n, args.term, args.leaderId);
    if Matches(m.log, args.prevLogIndex, args.prevLogTerm) {
      StoreFrame(m, args.prevLogIndex, args.entries);
      CommitToFrame(Store(m, args.prevLogIndex, args.entries), args.leaderCommit);
    }
  }

  lemma AppendKeeps(s: Cluster, p: Packet)
    requires ElectionInv(s) && Arriving(s, p) && p.AppendRequest?
    ensures TermAndVoteKept(s.history, s.nodes[p.dst], HandleAppendEntries(s.nodes[p.dst], p.args).0, p.dst)
  {
    hide HandleAppendEntries;
    var n := s.nodes[p.dst];
    assert NodeOk(s, p.dst);
    AppendEntriesEffect(n, p.args);
    if p.args.term >= n.currentTerm {
      MeetLeaderKeeps(s, p);
      AnswerKeepsVote(n, p.args);
    }
  }

  lemma TermAndVoteStep(s: Cluster, e: Event, i: int)
    requires ElectionInv(s) && Enabled(s, e) && i in s.nodes
    ensures i in Step(s, e).nodes && TermAndVoteKept(s.history, s.nodes[i], Step(s, e).nodes[i], i)
  {
    hide HandleRequestVote, HandleVoteResponse, HandleAppendEntries, HandleAppendEntriesResponse;
    hide TermAndVoteKept, Restart, MeetLeader, StepDown, StartElection, Persist, ApplyCommitted, AppendCommand;
    assert NodeOk(s, i);
    StaysPut(s.history, s.nodes[i], i);
    match e
    case Timeout(j) => LocalKeeps(s, j);
    case DeliverVoteRequest(p) => VoteRequestKeeps(s, p);
    case DeliverVoteReply(p) => VoteReplyKeeps(s, p);
    case ClientAppend(j, command) => CommandKeeps(s, j, command);
    case DeliverAppend(p) => AppendKeeps(s, p);
    case DeliverAppendReply(p) => AppendReplyKeeps(s, p);
    case Apply(j) => LocalKeeps(s, j);
    case Save(j) => LocalKeeps(s, j);
    case Crash(j) => LocalKeeps(s, j);
    case CrashInVote(p) => CrashInVoteKeeps(s, p);
    case CrashInAppend(p) => MeetLeaderKeeps(s, p);
    case _ =>
  }

  lemma StaysPut(h: History, n: Node, i: int)
    requires DiskOk(n)
    ensures TermAndVoteKept(h, n, n, i)
  {
  }

  lemma LocalKeeps(s: Cluster, i: int)
    requires ElectionInv(s) && i in s.nodes
    ensures TermAndVoteKept(s.history, s.nodes[i], StartElection(s.nodes[i]), i)
    ensures TermAndVoteKept(s.history, s.nodes[i], ApplyCommitted(s.nodes[i]), i)
    ensures TermAndVoteKept(s.history, s.nodes[i], Persist(s.nodes[i]), i)
    ensures TermAndVoteKept(s.history, s.nodes[i], Restart(s.nodes[i]), i)
  {
    assert NodeOk(s, i);
  }

  lemma CommandKeeps(s: Cluster, i: int, command: string)
    requires ElectionInv(s) && i in s.nodes
    ensures TermAndVoteKept(s.history, s.nodes[i], AppendCommand(s.nodes[i], command).0, i)
  {
    assert NodeOk(s, i);
  }

  lemma CrashInVoteKeeps(s: Cluster, p: Packet)
    requires ElectionInv(s) && Arriving(s, p) && p.VoteRequest? && p.ask.term > s.nodes[p.dst].currentTerm
    ensures TermAndVoteKept(s.history, s.nodes[p.dst], Restart(StepDown(s.nodes[p.dst], p.ask.term)), p.dst)
  {
    assert NodeOk(s, p.dst);
  }

  /** Over any run the term never falls, the disk follows term and vote and holds a beginning
      of the log (of a node that does not lead, all of it), and within a term a vote once cast
      is never moved to another candidate, except by being forgotten in a term that already
      has a leader elected without it. */
  lemma TermAndVoteSurvive(states: seq<Cluster>, events: seq<Event>, k: nat, i: int)
    requires IsRun(states, events) && k < |events| && i in states[k].nodes
    ensures i in states[k + 1].nodes
    ensures TermAndVoteKept(states[k].history, states[k].nodes[i], states[k + 1].nodes[i], i)
  {
    hide Step, ElectionInv, TermAndVoteKept;
    RunElectionInv(states, events, k);
    assert StepAt(states, events, k);
    TermAndVoteStep(states[k], events[k], i);
  }

  /** One vote for each term is not what the program keeps.  A request at least as new as the
      node's term leaves the vote alone exactly when the node was a follower (whose old vote
      then stays even in a newer term) or had no vote. */
  lemma VoteAfterRequest(n: Node, args: AppendRequestArgs)
    requires args.term >= n.currentTerm
    ensures HandleAppendEntries(n, args).0.votedFor == n.votedFor <==> n.role == Follower || n.votedFor == -1
  {
  }

  /** A run in which node 2 votes for itself and for node 0 in the same term: it stands in
      term 1, hears from that term's leader, and then grants the leader's late request. */
  lemma VotesTwiceInOneTerm() returns (states: seq<Cluster>, events: seq<Event>, a: nat)
    ensures IsRun(states, events) && a < |states| - 1
    ensures 2 in states[a].nodes && states[a].nodes[2].currentTerm == 1 && states[a].nodes[2].votedFor == 2
    ensures 2 in Last(states).nodes && Last(states).nodes[2].currentTerm == 1 && Last(states).nodes[2].votedFor == 0
    ensures VoteReply(2, 0, RequestVoteReply(1, true)) in Last(states).net
  {
    var x := 10;
    var s4, e4 := FirstLeader(x);
    var s5, e5 := Extend(s4, e4, x, Timeout(2));
    var heartbeat: AppendRequestArgs := AppendEntriesArgs(1, 0, 0, 0, [], 0);
    assert MakeAppendEntries(Last(s5).nodes[0], 1) == heartbeat;
    var s6, e6 := Extend(s5, e5, x, SendAppend(0, 1));
    var s7, e7 := Extend(s6, e6, x, DeliverAppend(AppendRequest(0, 2, heartbeat)));
    states, events := LateRequestGranted(s7, e7, x);
    a := 5;
    assert states[5] == Last(s5);
  }

  /** A leader's request of its election reaches a follower of its term that has no vote. */
  lemma LateRequestGranted(states: seq<Cluster>, events: seq<Event>, x: nat)
    returns (states': seq<Cluster>, events': seq<Event>)
    requires IsRunBut(states, events, x) && !(|events| <= x < |events| + 2)
    requires Leads(Last(states), 0, [1, 2], 1, [SENTINEL], [1, 1], [0, 0], 0)
    requires Follows(Last(states), 2, [0, 1], 1, [SENTINEL]) && Last(states).nodes[2].votedFor == -1
    ensures IsRunBut(states', events', x) && Continues(states, events, states', events') && |states'| == |states| + 2
    ensures 2 in Last(states').nodes && Last(states').nodes[2].currentTerm == 1 && Last(states').nodes[2].votedFor == 0
    ensures VoteReply(2, 0, RequestVoteReply(1, true)) in Last(states').net
  {
    var s1, e1 := Extend(states, events, x, SendVoteRequest(0, 2, 1, 0, 0));
    states', events' := Extend(s1, e1, x, DeliverVoteRequest(VoteRequest(0, 2, RequestVoteArgs(1, 0, 0, 0))));
  }
}
