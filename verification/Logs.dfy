/**
 Logs over whole runs (section 5.3 of the Raft paper): Log Matching between nodes, between
 requests and nodes, and between requests, and what the up-to-date test means because of it.
 All runs count, crashes that lose a leader's unsaved entries included.
 */
module Logs {
  import opened RaftLog
  import opened RaftSpec
  import opened Cluster
  import opened LogMatching
  import Handlers

  /** What a log of some time is, seen from a later one. */
  lemma LogKnown(states: seq<Cluster>, events: seq<Event>, a: nat, last: nat, i: int)
    requires IsRun(states, events) && a <= last < |states| && i in states[a].nodes
    ensures Traced(states[last].history, states[a].nodes[i].log)
    ensures WellFormed(states[a].nodes[i].log, states[a].nodes[i].currentTerm)
  {
    RunLogInv(states, events, a);
    RunLogsGrow(states, events, a, last);
    assert NodeLogOk(states[a].history, states[a].nodes[i]);
    TracedGrows(states[a].history, states[last].history, states[a].nodes[i].log);
  }

  /** What a request of some time that carries entries is, seen from a later one. */
  lemma RequestKnown(states: seq<Cluster>, events: seq<Event>, a: nat, last: nat, p: Packet)
    requires IsRun(states, events) && a <= last < |states| && p in states[a].net
    requires p.AppendRequest? && p.args.entries != []
    ensures CarriesSlice(states[last].history, p.args) && LeaderLogOk(states[last].history, p.args.term)
  {
    RunLogInv(states, events, a);
    RunLogInv(states, events, last);
    RunLogsGrow(states, events, a, last);
    assert RequestOk(states[a].history, p.args);
    RequestGrows(states[a].history, states[last].history, p.args);
  }

  /** Log Matching: whenever, on whichever nodes, two logs of a run hold entries of the
      same term at the same position, they are equal up to and including it. */
  lemma LogsMatch(states: seq<Cluster>, events: seq<Event>, a: nat, b: nat, i: int, j: int, k: nat)
    requires IsRun(states, events) && a < |states| && b < |states|
    requires i in states[a].nodes && j in states[b].nodes
    requires k < |states[a].nodes[i].log| && k < |states[b].nodes[j].log|
    requires states[a].nodes[i].log[k].term == states[b].nodes[j].log[k].term
    ensures Agree(states[a].nodes[i].log, states[b].nodes[j].log, k + 1)
  {
    var last := if a <= b then b else a;
    LogKnown(states, events, a, last, i);
    LogKnown(states, events, b, last, j);
    if k >= 1 {
      SameTermSamePrefix(states[last].history, states[a].nodes[i].log, states[b].nodes[j].log, k);
    }
  }

  /** What the election restriction asks for: a log passes the test against another exactly
      when it ends in a later term or has the other one as a beginning. */
  lemma UpToDateMeans(states: seq<Cluster>, events: seq<Event>, a: nat, b: nat, i: int, j: int)
    requires IsRun(states, events) && a < |states| && b < |states|
    requires i in states[a].nodes && j in states[b].nodes
    ensures var mine, theirs := states[a].nodes[i].log, states[b].nodes[j].log;
      UpToDate(LastIndex(mine), LastTerm(mine), theirs) <==> LastTerm(mine) > LastTerm(theirs) || theirs <= mine
  {
    var last := if a <= b then b else a;
    var mine, theirs := states[a].nodes[i].log, states[b].nodes[j].log;
    LogKnown(states, events, a, last, i);
    LogKnown(states, events, b, last, j);
    SameEndNested(states[last].history, mine, theirs);
    if theirs <= mine { assert mine[|theirs| - 1] == theirs[|theirs| - 1]; }
  }

  /** Of two logs that end in the same term the longer continues the shorter. */
  lemma SameEndNested(h: History, mine: seq<LogEntry>, theirs: seq<LogEntry>)
    requires Traced(h, mine) && Traced(h, theirs)
    requires WellFormed(mine, LastTerm(mine)) && WellFormed(theirs, LastTerm(theirs))
    ensures LastTerm(mine) == LastTerm(theirs) && |theirs| <= |mine| ==> theirs <= mine
  {
    var k, n := |theirs| - 1, |mine| - 1;
    if LastTerm(mine) == LastTerm(theirs) && k <= n {
      if k >= 1 {
        assert FromLeader(h, theirs, k) && FromLeader(h, mine, n);
      }
      assert theirs == mine[..k + 1];
    }
  }

  /** When a vote is given, over every run: if the request carries the end of a log that some
      node had at some time, the voter answers with the higher of the two terms, and gives
      its vote exactly when the request is not of an older term, its vote of that term is free
      or already the candidate's, and that log ends in a later term or continues its own. */
  lemma VoteGiven(states: seq<Cluster>, events: seq<Event>, k: nat, a: nat, j: int)
    requires IsRun(states, events) && k < |events| && events[k].DeliverVoteRequest?
    requires a < |states| && j in states[a].nodes && events[k].p.VoteRequest? && events[k].p.dst in states[k].nodes
    requires events[k].p.ask.lastLogIndex == LastIndex(states[a].nodes[j].log)
    requires events[k].p.ask.lastLogTerm == LastTerm(states[a].nodes[j].log)
    ensures var p, n, log := events[k].p, states[k].nodes[events[k].p.dst], states[a].nodes[j].log;
      var given := p.ask.term >= n.currentTerm
        && (p.ask.term > n.currentTerm || n.votedFor == -1 || n.votedFor == p.ask.candidateId)
        && (LastTerm(log) > LastTerm(n.log) || n.log <= log);
      && VoteReply(p.dst, p.src, RequestVoteReply(Handlers.Max(n.currentTerm, p.ask.term), given)) in states[k + 1].net
      && p.dst in states[k + 1].nodes
      && states[k + 1].nodes[p.dst].currentTerm == Handlers.Max(n.currentTerm, p.ask.term)
      && states[k + 1].nodes[p.dst].votedFor ==
           if given then p.ask.candidateId else if p.ask.term > n.currentTerm then -1 else n.votedFor
  {
    hide HandleRequestVote, UpToDate;
    var p, n := events[k].p, states[k].nodes[events[k].p.dst];
    assert StepAt(states, events, k);
    UpToDateMeans(states, events, a, k, j, p.dst);
    Handlers.DeservesMeans(n, p.ask);
    Handlers.VoteAnswered(n, p.ask);
    if p.ask.term > n.currentTerm {
      Handlers.VoteTakesTerm(n, p.ask);
    } else {
      Handlers.VoteKeepsRole(n, p.ask);
    }
  }

  /** Provenance: an entry of some term, anywhere at any time, sits at the position and
      behind the prefix it has in the log of whoever leads that term, wherever that
      leader's log reaches; also after the leader crashed and lost it. */
  lemma EntriesComeFromTheLeader(
      states: seq<Cluster>, events: seq<Event>, a: nat, b: nat, leader: int, j: int, k: nat)
    requires IsRun(states, events) && a < |states| && b < |states|
    requires leader in states[a].nodes && states[a].nodes[leader].role == Leader
    requires j in states[b].nodes && 1 <= k < |states[b].nodes[j].log|
    requires states[b].nodes[j].log[k].term == states[a].nodes[leader].currentTerm
    requires k < |states[a].nodes[leader].log|
    ensures Agree(states[b].nodes[j].log, states[a].nodes[leader].log, k + 1)
  {
    var last := if a <= b then b else a;
    RunLogInv(states, events, a);
    RunLogsGrow(states, events, a, last);
    assert NodeLogOk(states[a].history, states[a].nodes[leader]);
    LogKnown(states, events, b, last, j);
    assert FromLeader(states[last].history, states[b].nodes[j].log, k);
  }

  // --- Requests in flight ---

  /** The entry that a request carries for position k. */
  function EntryAt(args: AppendRequestArgs, k: int): LogEntry
    requires args.prevLogIndex < k < End(args)
  {
    args.entries[k - args.prevLogIndex - 1]
  }

  lemma EntryOfLeader(h: History, args: AppendRequestArgs, k: int)
    requires CarriesSlice(h, args) && args.prevLogIndex < k < End(args)
    ensures EntryAt(args, k) == h.logs[args.term][k]
  {
  }

  /** A request and a log, at any two times: where an entry of the request has the term that
      the log holds at its position, the request brings nothing new up to there, and its
      consistency check holds. */
  lemma RequestsMatchLogs(states: seq<Cluster>, events: seq<Event>, a: nat, b: nat, p: Packet, j: int, k: nat)
    requires IsRun(states, events) && a < |states| && b < |states|
    requires p in states[a].net && p.AppendRequest? && j in states[b].nodes
    requires p.args.prevLogIndex < k < End(p.args) && k < |states[b].nodes[j].log|
    requires EntryAt(p.args, k).term == states[b].nodes[j].log[k].term
    ensures forall m :: p.args.prevLogIndex < m <= k ==> EntryAt(p.args, m) == states[b].nodes[j].log[m]
    ensures p.args.prevLogTerm == states[b].nodes[j].log[p.args.prevLogIndex].term
  {
    var last := if a <= b then b else a;
    var h, args, log := states[last].history, p.args, states[b].nodes[j].log;
    RequestKnown(states, events, a, last, p);
    LogKnown(states, events, b, last, j);
    EntryOfLeader(h, args, k);
    SameTermSamePrefix(h, log, h.logs[args.term], k);
    forall m | args.prevLogIndex < m <= k ensures EntryAt(args, m) == log[m] {
      EntryOfLeader(h, args, m);
    }
  }

  /** Two requests, of any leaders at any times: where they carry entries of the same term
      for the same position, they carry the same entries for all positions up to there that
      both carry, and where one begins the other has the term that it checks for. */
  lemma RequestsMatch(states: seq<Cluster>, events: seq<Event>, a: nat, b: nat, p: Packet, q: Packet, k: nat)
    requires IsRun(states, events) && a < |states| && b < |states|
    requires p in states[a].net && p.AppendRequest? && q in states[b].net && q.AppendRequest?
    requires p.args.prevLogIndex < k < End(p.args) && q.args.prevLogIndex < k < End(q.args)
    requires EntryAt(p.args, k).term == EntryAt(q.args, k).term
    ensures forall m :: p.args.prevLogIndex < m <= k && q.args.prevLogIndex < m ==>
              EntryAt(p.args, m) == EntryAt(q.args, m)
    ensures q.args.prevLogIndex < p.args.prevLogIndex ==>
              p.args.prevLogTerm == EntryAt(q.args, p.args.prevLogIndex).term
    ensures q.args.prevLogIndex == p.args.prevLogIndex ==> p.args.prevLogTerm == q.args.prevLogTerm
  {
    var last := if a <= b then b else a;
    var h := states[last].history;
    RequestKnown(states, events, a, last, p);
    RequestKnown(states, events, b, last, q);
    EntryOfLeader(h, p.args, k);
    EntryOfLeader(h, q.args, k);
    SameTermSamePrefix(h, h.logs[p.args.term], h.logs[q.args.term], k);
    forall m | p.args.prevLogIndex < m <= k && q.args.prevLogIndex < m
      ensures EntryAt(p.args, m) == EntryAt(q.args, m)
    {
      EntryOfLeader(h, p.args, m);
      EntryOfLeader(h, q.args, m);
    }
    if q.args.prevLogIndex < p.args.prevLogIndex { EntryOfLeader(h, q.args, p.args.prevLogIndex); }
  }
}
