/**
 Careful runs: Leader Completeness and State Machine Safety (sections 5.4 and 5.4.3 of the
 Raft paper) as statements about what nodes hold and apply over whole runs.
 */
module CarefulRuns {
  import opened RaftLog
  import opened RaftSpec
  import opened Cluster
  import opened ElectionSafety
  import opened LogMatching
  import opened LeaderCompleteness
  import opened Commitment
  import Handlers

  lemma {:induction false} RunRaftInv(states: seq<Cluster>, events: seq<Event>, k: nat)
    requires IsCarefulRun(states, events) && k < |states|
    ensures RaftInv(states[k])
  {
    hide Step, RaftInv;
    if k == 0 {
      InitRaftInv(states[0]);
    } else {
      RunRaftInv(states, events, k - 1);
      assert StepAt(states, events, k - 1) && CarefulAt(states, events, k - 1);
      StepKeepsRaftInv(states[k - 1], events[k - 1]);
    }
  }

  lemma RunStepAllGrows(states: seq<Cluster>, events: seq<Event>, k: nat)
    requires IsCarefulRun(states, events) && k < |events|
    ensures AllGrows(states[k].history, states[k + 1].history)
  {
    RunRaftInv(states, events, k);
    assert StepAt(states, events, k);
    StepAllGrows(states[k], events[k]);
  }

  lemma GrowsOn(h: History, m: History, h': History)
    requires AllGrows(h, m) && AllGrows(m, h')
    ensures AllGrows(h, h')
  {
    LogsGrowOn(h, m, h');
    forall term, k | term in h.logs && |h.logs[term]| <= k < |h'.logs[term]| ensures h'.logs[term][k].term == term {
      if k < |m.logs[term]| {
        assert h'.logs[term][k] == m.logs[term][k];
      }
    }
  }

  lemma SelfAllGrows(s: Cluster)
    requires LogInv(s)
    ensures AllGrows(s.history, s.history)
  {
    StandsStill(s, s);
  }

  lemma {:induction false} RunAllGrows(states: seq<Cluster>, events: seq<Event>, a: nat, b: nat)
    requires IsCarefulRun(states, events) && a <= b < |states|
    ensures AllGrows(states[a].history, states[b].history)
    decreases b
  {
    hide Step, AllGrows;
    if a < b {
      RunAllGrows(states, events, a, b - 1);
      RunStepAllGrows(states, events, b - 1);
      GrowsOn(states[a].history, states[b - 1].history, states[b].history);
    } else {
      RunRaftInv(states, events, a);
      SelfAllGrows(states[a]);
    }
  }

  lemma OnlyRepliesCommit(s: Cluster, e: Event, i: int)
    requires ElectionInv(s) && Enabled(s, e) && i in s.nodes && i in Step(s, e).nodes
    requires s.nodes[i].role == Leader && Step(s, e).nodes[i].role == Leader
    requires Step(s, e).nodes[i].commitIndex > s.nodes[i].commitIndex
    ensures e.DeliverAppendReply? && e.p.dst == i
  {
    hide HandleRequestVote, HandleVoteResponse, HandleAppendEntries, HandleAppendEntriesResponse;
    assert NodeOk(s, i);
    match e
    case DeliverVoteRequest(p) => if p.dst == i { RequestVoteEffect(s.nodes[i], p.ask); }
    case DeliverVoteReply(p) => if p.dst == i { VoteResponseEffect(s.nodes[i], p.src, p.vote); }
    case DeliverAppend(p) => if p.dst == i { AppendEntriesEffect(s.nodes[i], p.args); }
    case _ =>
  }

  /** The commit index of a node that leads before and after a step moves only by counting a
      reply, and then a record says so. */
  lemma CommitIsRecorded(s: Cluster, e: Event, i: int) returns (c: Commit)
    requires ElectionInv(s) && Enabled(s, e) && i in s.nodes && i in Step(s, e).nodes
    requires s.nodes[i].role == Leader && Step(s, e).nodes[i].role == Leader
    requires Step(s, e).nodes[i].commitIndex > s.nodes[i].commitIndex
    ensures var n' := Step(s, e).nodes[i];
      && c in Step(s, e).history.commits && c.term == s.nodes[i].currentTerm == n'.currentTerm
      && c.length == n'.commitIndex + 1 && n'.log == s.nodes[i].log
  {
    hide HandleAppendEntriesResponse, Holders;
    var n, n' := s.nodes[i], Step(s, e).nodes[i];
    assert NodeOk(s, i);
    OnlyRepliesCommit(s, e, i);
    AppendResponseEffect(n, e.p.src, e.p.reply);
    c := Commit(n'.currentTerm, n'.commitIndex + 1, Holders(n', n'.commitIndex));
  }

  /** The log a leader has at some time, seen from a later one: nothing shared with an older
      term's log was added since. */
  lemma LeaderHadIt(h: History, h': History, term: int, t: int, n: nat)
    requires GrowOwn(h, h') && term in h.logs && t in h'.logs && t < term && n <= |h'.logs[t]|
    requires WellFormed(h'.logs[t], t)
    requires Agree(h'.logs[term], h'.logs[t], n)
    ensures Agree(h.logs[term], h'.logs[t], n)
  {
    var k := |h.logs[term]|;
    assert k < |h'.logs[term]| ==> h'.logs[term][k].term == term;
    if k < n {
      assert false;
    }
  }

  lemma LaterLeadersHold(states: seq<Cluster>, events: seq<Event>, a: nat, b: nat, c: Commit, j: int)
    requires IsCarefulRun(states, events) && a < |states| && b < |states|
    requires c in states[a].history.commits && c.term in states[a].history.logs
    requires c.length <= |states[a].history.logs[c.term]|
    requires j in states[b].nodes && states[b].nodes[j].role == Leader && states[b].nodes[j].currentTerm > c.term
    ensures Agree(states[b].nodes[j].log, states[a].history.logs[c.term], c.length)
  {
    hide BallotInv, CarefulAt, StepAt, NodeOk, Step, Enabled, Careful, ElectionInv, AckInv, ApplyInv;
    var last := if a <= b then b else a;
    var term := states[b].nodes[j].currentTerm;
    RunRaftInv(states, events, b);
    RunRaftInv(states, events, last);
    RunAllGrows(states, events, a, last);
    RunAllGrows(states, events, b, last);
    assert NodeLogOk(states[b].history, states[b].nodes[j]);
    assert CommitOk(states[last], c);
    assert LeaderLogOk(states[last].history, c.term);
    Completeness(states[last], c, term);
    LeaderHadIt(states[b].history, states[last].history, term, c.term, c.length);
  }

  /** Leader Completeness: over any careful run, what a leader commits by counting replies is
      in the log of every leader of every later term, at whatever time that leader leads. */
  lemma CommittedStaysWithLeaders(states: seq<Cluster>, events: seq<Event>, a: nat, b: nat, i: int, j: int)
    requires IsCarefulRun(states, events) && a < |events| && b < |states|
    requires i in states[a].nodes && i in states[a + 1].nodes && j in states[b].nodes
    requires states[a].nodes[i].role == Leader && states[a + 1].nodes[i].role == Leader
    requires states[a + 1].nodes[i].commitIndex > states[a].nodes[i].commitIndex
    requires states[b].nodes[j].role == Leader && states[b].nodes[j].currentTerm > states[a].nodes[i].currentTerm
    ensures Agree(states[b].nodes[j].log, states[a + 1].nodes[i].log, states[a + 1].nodes[i].commitIndex + 1)
  {
    hide Enabled, Careful, ElectionInv, AckInv, ApplyInv, BallotInv, NodeOk, Step;
    RunRaftInv(states, events, a);
    RunRaftInv(states, events, a + 1);
    assert StepAt(states, events, a);
    var c := CommitIsRecorded(states[a], events[a], i);
    assert CommitOk(states[a + 1], c) && NodeLogOk(states[a + 1].history, states[a + 1].nodes[i]);
    LaterLeadersHold(states, events, a + 1, b, c, j);
  }

  // --- State Machine Safety ---

  lemma CommittedComparable(s: Cluster, log1: seq<LogEntry>, bound1: int, n1: nat,
                            log2: seq<LogEntry>, bound2: int, n2: nat)
    requires SafeInv(s) && CommitInv(s)
    requires Committed(s.history, log1, bound1, n1) && Committed(s.history, log2, bound2, n2)
    requires n1 <= n2 && 1 <= n1 && log1[0] == log2[0]
    ensures Agree(log1, log2, n1)
  {
    if n1 > 1 {
      var c1 :| Covers(s.history, c1, log1, bound1, n1);
      var c2 :| Covers(s.history, c2, log2, bound2, n2);
      assert CommitOk(s, c1) && CommitOk(s, c2);
      if c1.term <= c2.term {
        LeadersHold(s, c1, c2.term);
      } else {
        LeadersHold(s, c2, c1.term);
      }
    }
  }

  lemma CommandsPrefix(log1: seq<LogEntry>, n1: nat, log2: seq<LogEntry>, n2: nat)
    requires n1 <= n2 && Agree(log1, log2, n1) && n2 <= |log2|
    ensures Commands(log1, 1, n1) <= Commands(log2, 1, n2)
  {
  }

  /** Two nodes of one set of records: the shorter list of applied commands starts the longer. */
  lemma AppliedComparable(s: Cluster, n1: Node, n2: Node)
    requires SafeInv(s) && CommitInv(s) && AppliedOk(s.history, n1) && AppliedOk(s.history, n2)
    requires n1.log[0] == n2.log[0] && n1.lastApplied <= n2.lastApplied
    ensures n1.applied <= n2.applied
  {
    var k1, k2 := n1.lastApplied + 1, n2.lastApplied + 1;
    CommittedByPrefix(s.history, n1.log, n1.currentTerm, n1.commitIndex + 1, n1.log, n1.currentTerm);
    CommittedShorter(s.history, n1.log, n1.currentTerm, n1.commitIndex + 1, k1);
    CommittedShorter(s.history, n2.log, n2.currentTerm, n2.commitIndex + 1, k2);
    CommittedComparable(s, n1.log, n1.currentTerm, k1, n2.log, n2.currentTerm, k2);
    CommandsPrefix(n1.log, k1, n2.log, k2);
  }

  lemma CommittedShorter(h: History, log: seq<LogEntry>, bound: int, n: nat, m: nat)
    requires Committed(h, log, bound, n) && m <= n
    ensures Committed(h, log, bound, m)
  {
    if m > 1 {
      var c :| Covers(h, c, log, bound, n);
      assert Covers(h, c, log, bound, m);
    }
  }

  /** State Machine Safety: over any careful run, of the command sequences that any two nodes
      have handed to their state machines, at any two times, one is a prefix of the other. */
  lemma AppliedSequencesAgree(states: seq<Cluster>, events: seq<Event>, a: nat, b: nat, i: int, j: int)
    requires IsCarefulRun(states, events) && a < |states| && b < |states|
    requires i in states[a].nodes && j in states[b].nodes
    ensures states[a].nodes[i].applied <= states[b].nodes[j].applied
            || states[b].nodes[j].applied <= states[a].nodes[i].applied
  {
    hide Step, Enabled, Careful;
    var last := if a <= b then b else a;
    RunRaftInv(states, events, a);
    RunRaftInv(states, events, b);
    RunRaftInv(states, events, last);
    RunAllGrows(states, events, a, last);
    RunAllGrows(states, events, b, last);
    var n1, n2 := states[a].nodes[i], states[b].nodes[j];
    assert NodeLogOk(states[a].history, n1) && AppliedOk(states[a].history, n1);
    assert NodeLogOk(states[b].history, n2) && AppliedOk(states[b].history, n2);
    AppliedGrows(states[a].history, states[last].history, n1);
    AppliedGrows(states[b].history, states[last].history, n2);
    if n1.lastApplied <= n2.lastApplied {
      AppliedComparable(states[last], n1, n2);
    } else {
      AppliedComparable(states[last], n2, n1);
    }
  }

  /** At every point of a careful run the callback has received exactly the commands at log
      positions 1 to lastApplied, once each and in order, and no applied or committed
      position lies past the log. */
  lemma AppliedExactly(states: seq<Cluster>, events: seq<Event>, k: nat, i: int)
    requires IsCarefulRun(states, events) && k < |states| && i in states[k].nodes
    ensures var n := states[k].nodes[i];
      && n.lastApplied <= n.commitIndex < |n.log|
      && n.applied == Commands(n.log, 1, n.lastApplied + 1)
  {
    hide Step, Enabled, Careful;
    RunRaftInv(states, events, k);
    assert AppliedOk(states[k].history, states[k].nodes[i]);
  }

  /** One step of a careful run at one node: unless the node restarts, its commit index never
      falls and what it has handed to the state machine only grows; and a follower commits
      nothing past the entries its leader's request verified. */
  lemma ProgressIsKept(states: seq<Cluster>, events: seq<Event>, k: nat, i: int)
    requires IsCarefulRun(states, events) && k < |events|
    requires i in states[k].nodes && i in states[k + 1].nodes
    requires !events[k].Crash? && !events[k].CrashInVote? && !events[k].CrashInAppend?
    ensures var n, n' := states[k].nodes[i], states[k + 1].nodes[i];
      && n'.commitIndex >= n.commitIndex
      && n.applied <= n'.applied
      && (events[k].DeliverAppend? && events[k].p.AppendRequest? && n'.commitIndex > n.commitIndex ==>
            n'.commitIndex == events[k].p.args.leaderCommit
            <= events[k].p.args.prevLogIndex + |events[k].p.args.entries|)
  {
    hide Step, RaftInv;
    RunRaftInv(states, events, k);
    assert StepAt(states, events, k);
    StepKeepsProgress(states[k], events[k], i);
  }

  /** What an accepted request does over a careful run: the follower's commit index becomes the
      leader's if that is larger, without a cut, and then it has applied exactly the commands
      up to there. */
  lemma AcceptedIsCommitted(states: seq<Cluster>, events: seq<Event>, k: nat)
    requires IsCarefulRun(states, events) && k < |events| && events[k].DeliverAppend?
    requires Arriving(states[k], events[k].p) && events[k].p.AppendRequest?
    requires Handlers.Fits(states[k].nodes[events[k].p.dst], events[k].p.args)
    ensures var p := events[k].p;
      && p.dst in states[k + 1].nodes
      && var n, n' := states[k].nodes[p.dst], states[k + 1].nodes[p.dst];
      && n'.commitIndex == Handlers.Max(n.commitIndex, p.args.leaderCommit)
      && (n'.commitIndex > n.commitIndex ==>
            && n'.lastApplied == n'.commitIndex < |n'.log|
            && n'.applied == Commands(n'.log, 1, n'.commitIndex + 1))
  {
    hide RaftInv, StepAt, HandleAppendEntries;
    RunRaftInv(states, events, k);
    RunRaftInv(states, events, k + 1);
    StepDelivers(states, events, k);
    CommitNotCut(states[k], events[k].p);
    NodeApplied(states[k], events[k].p.dst);
    NodeApplied(states[k + 1], events[k].p.dst);
    Handlers.AppendCommits(states[k].nodes[events[k].p.dst], events[k].p.args);
  }

  lemma NodeApplied(s: Cluster, i: int)
    requires RaftInv(s) && i in s.nodes
    ensures AppliedOk(s.history, s.nodes[i])
  {
  }

  lemma StepDelivers(states: seq<Cluster>, events: seq<Event>, k: nat)
    requires IsRun(states, events) && k < |events| && events[k].DeliverAppend?
    ensures Arriving(states[k], events[k].p) && events[k].p.AppendRequest?
    ensures states[k + 1].nodes ==
            var p := events[k].p; states[k].nodes[p.dst := HandleAppendEntries(states[k].nodes[p.dst], p.args).0]
  {
    hide HandleAppendEntries;
    assert StepAt(states, events, k);
  }

  /** An accepted request reaches as far as the commit index it carries. */
  lemma CommitNotCut(s: Cluster, p: Packet)
    requires RaftInv(s) && Arriving(s, p) && p.AppendRequest? && Handlers.Fits(s.nodes[p.dst], p.args)
    ensures p.args.leaderCommit < |HandleAppendEntries(s.nodes[p.dst], p.args).0.log|
  {
    hide HandleAppendEntries, FirstMatch, FromEither;
    var n := s.nodes[p.dst];
    assert NodeLogOk(s.history, n) && RequestOk(s.history, p.args) && LeaderCommitOk(s.history, p.args);
    SuccessCarriesSlice(s.history, n, p.args);
    Handlers.AppendStores(n, p.args);
  }

  lemma StepKeepsProgress(s: Cluster, e: Event, i: int)
    requires RaftInv(s) && Enabled(s, e) && i in s.nodes && i in Step(s, e).nodes
    requires !e.Crash? && !e.CrashInVote? && !e.CrashInAppend?
    ensures var n, n' := s.nodes[i], Step(s, e).nodes[i];
      && n'.commitIndex >= n.commitIndex
      && n.applied <= n'.applied
      && (e.DeliverAppend? && n'.commitIndex > n.commitIndex ==>
            n'.commitIndex == e.p.args.leaderCommit <= e.p.args.prevLogIndex + |e.p.args.entries|)
  {
    hide LogInv, CommitInv, ApplyInv, BallotInv, AckInv, HandleRequestVote, HandleVoteResponse, HandleAppendEntries,
         HandleAppendEntriesResponse;
    match e
    case DeliverVoteRequest(p) =>
      assert NodeOk(s, p.dst);
      RequestVoteEffect(s.nodes[p.dst], p.ask);
    case DeliverVoteReply(p) =>
      assert NodeOk(s, p.dst);
      VoteResponseEffect(s.nodes[p.dst], p.src, p.vote);
    case DeliverAppend(p) => DeliveredApplied(s, p);
    case DeliverAppendReply(p) =>
      assert NodeOk(s, p.dst);
      AppendResponseEffect(s.nodes[p.dst], p.src, p.reply);
    case _ =>
  }
}
