/**
 The conflict backoff (src/raft/raft_node.cpp:538-568): repeated exchanges with one
 follower always come to agreement, and soon.
 */
module Backoff {
  import opened RaftLog
  import opened RaftSpec
  import opened Cluster
  import opened ElectionSafety
  import opened LogMatching

  /** One undisturbed remote call of a leader to its peer number p: request, handling, reply. */
  function Exchange(s: Cluster, i: int, p: nat): Cluster
    requires Ready(s, i, p)
  {
    var j, args := s.nodes[i].peers[p], MakeAppendEntries(s.nodes[i], p);
    var request := AppendRequest(i, j, args);
    var reply := AppendReply(j, i, HandleAppendEntries(s.nodes[j], args).1, args);
    OnAppendReply(OnAppend(Send(s, request), request), reply)
  }

  /** Node i leads and its peer number p is not ahead of its term. */
  predicate Ready(s: Cluster, i: int, p: nat) {
    && i in s.nodes && s.nodes[i].role == Leader
    && p < |s.nodes[i].peers| && s.nodes[i].peers[p] in s.nodes && s.nodes[i].peers[p] != i
    && s.nodes[s.nodes[i].peers[p]].currentTerm <= s.nodes[i].currentTerm
  }

  /** An exchange is three ordinary events. */
  lemma ExchangeIsThreeEvents(s: Cluster, i: int, p: nat)
    requires ElectionInv(s) && Ready(s, i, p)
    ensures var j, args := s.nodes[i].peers[p], MakeAppendEntries(s.nodes[i], p);
      var reply := HandleAppendEntries(s.nodes[j], args).1;
      var e1, e2 := SendAppend(i, p), DeliverAppend(AppendRequest(i, j, args));
      var e3 := DeliverAppendReply(AppendReply(j, i, reply, args));
      && Enabled(s, e1)
      && Enabled(Step(s, e1), e2)
      && Enabled(Step(Step(s, e1), e2), e3)
      && Step(Step(Step(s, e1), e2), e3) == Exchange(s, i, p)
  {
  }

  /** A rejected request of the present term names a place strictly before the one tried.
      When the leader owns the conflicting term, this needs that both logs come from that
      term's leader: agreement of the two logs alone would not do. */
  lemma RejectionLowers(h: History, n: Node, f: Node, p: nat)
    requires NodeLogOk(h, n) && NodeLogOk(h, f) && n.role == Leader && p < |n.peers|
    requires f.currentTerm <= n.currentTerm
    requires !HandleAppendEntries(f, MakeAppendEntries(n, p)).1.success
    ensures var reply := HandleAppendEntries(f, MakeAppendEntries(n, p)).1;
      reply.term == n.currentTerm && 1 <= BackOff(n.log, reply) < n.nextIndex[p]
  {
    var args := MakeAppendEntries(n, p);
    var prev := args.prevLogIndex;
    var reply := HandleAppendEntries(f, args).1;
    if prev < |f.log| {
      assert reply.conflictTerm == f.log[prev].term >= 1;
      var last := LastOfTerm(n.log, |n.log| - 1, reply.conflictTerm);
      TermMeetsBefore(h, n.log, f.log, prev, last);
    }
  }

  /** A term both logs hold: if its last place in a is not before k, where b has it, then a
      has it at k as well. */
  lemma TermMeetsBefore(h: History, a: seq<LogEntry>, b: seq<LogEntry>, k: nat, last: int)
    requires Traced(h, a) && Traced(h, b) && 1 <= k < |b| && last < |a|
    requires last >= 1 ==> a[last].term == b[k].term
    ensures last >= k ==> a[k].term == b[k].term
  {
    assert FromLeader(h, b, k);
    assert last >= 1 ==> FromLeader(h, a, last);
  }

  /** An accepted request leaves the leader's whole log as a prefix of the follower's. */
  lemma AcceptanceReplicates(h: History, n: Node, f: Node, p: nat)
    requires NodeLogOk(h, n) && NodeLogOk(h, f) && n.role == Leader && n.currentTerm >= 1 && p < |n.peers|
    requires LeaderLogOk(h, n.currentTerm) && DiskOk(f)
    requires HandleAppendEntries(f, MakeAppendEntries(n, p)).1.success
    ensures Agree(n.log, HandleAppendEntries(f, MakeAppendEntries(n, p)).0.log, |n.log|)
  {
    var args := MakeAppendEntries(n, p);
    MadeRequestOk(h, n, p);
    AcceptedLog(f, args);
    SuccessCarriesSlice(h, f, args);
    MergeAccepted(h, f.log, args);
  }

  ghost predicate Replicated(s: Cluster, i: int, p: nat) {
    && Ready(s, i, p)
    && Agree(s.nodes[i].log, s.nodes[s.nodes[i].peers[p]].log, |s.nodes[i].log|)
    && s.nodes[i].nextIndex[p] == |s.nodes[i].log|
  }

  lemma PeerIndexFinds(peers: seq<int>, p: nat)
    requires Distinct(peers) && p < |peers|
    ensures PeerIndex(peers, peers[p]) == p
  {
    var q := PeerIndex(peers, peers[p]);
    assert peers[p] in peers;
  }

  /** The leader after the reply. */
  lemma LeaderAfter(n: Node, f: int, p: nat, reply: AppendEntriesReply)
    requires n.role == Leader && p < |n.peers| && PeerIndex(n.peers, f) == p && reply.term == n.currentTerm
    ensures var n' := HandleAppendEntriesResponse(n, f, reply).0;
      && n'.role == Leader && n'.log == n.log && n'.currentTerm == n.currentTerm && n'.peers == n.peers
      && n'.nextIndex[p] == if reply.success then |n.log| else BackOff(n.log, reply)
  {
  }

  /** Where an exchange leaves its two nodes. */
  lemma ExchangeNodes(s: Cluster, i: int, p: nat)
    requires ElectionInv(s) && LogInv(s) && Ready(s, i, p)
    ensures var s', n := Exchange(s, i, p), s.nodes[i];
      var j, args := n.peers[p], MakeAppendEntries(n, p);
      var (f', reply) := HandleAppendEntries(s.nodes[j], args);
      && s'.nodes == s.nodes[j := f'][i := HandleAppendEntriesResponse(n, j, reply).0]
      && reply.term == n.currentTerm == f'.currentTerm
      && PeerIndex(n.peers, j) == p
  {
    assert NodeOk(s, i) && NodeOk(s, s.nodes[i].peers[p]);
    PeerIndexFinds(s.nodes[i].peers, p);
    AppendEntriesEffect(s.nodes[s.nodes[i].peers[p]], MakeAppendEntries(s.nodes[i], p));
  }

  lemma ExchangeKeepsInv(s: Cluster, i: int, p: nat)
    requires ElectionInv(s) && LogInv(s) && Ready(s, i, p)
    ensures ElectionInv(Exchange(s, i, p)) && LogInv(Exchange(s, i, p))
  {
    var j, args := s.nodes[i].peers[p], MakeAppendEntries(s.nodes[i], p);
    var request := AppendRequest(i, j, args);
    var reply := AppendReply(j, i, HandleAppendEntries(s.nodes[j], args).1, args);
    ExchangeIsThreeEvents(s, i, p);
    var s1 := Step(s, SendAppend(i, p));
    StepKeepsElectionInv(s, SendAppend(i, p));
    StepKeepsLogInv(s, SendAppend(i, p));
    var s2 := Step(s1, DeliverAppend(request));
    StepKeepsElectionInv(s1, DeliverAppend(request));
    StepKeepsLogInv(s1, DeliverAppend(request));
    StepKeepsElectionInv(s2, DeliverAppendReply(reply));
    StepKeepsLogInv(s2, DeliverAppendReply(reply));
  }

  /** Every exchange either finishes the replication or strictly lowers nextIndex. */
  lemma ExchangeProgress(s: Cluster, i: int, p: nat)
    requires ElectionInv(s) && LogInv(s) && Ready(s, i, p)
    ensures var s' := Exchange(s, i, p);
      && Ready(s', i, p) && s'.nodes[i].log == s.nodes[i].log && s'.nodes[i].currentTerm == s.nodes[i].currentTerm
      && if HandleAppendEntries(s.nodes[s.nodes[i].peers[p]], MakeAppendEntries(s.nodes[i], p)).1.success
         then Replicated(s', i, p)
         else 1 <= s'.nodes[i].nextIndex[p] < s.nodes[i].nextIndex[p]
  {
    var n, j := s.nodes[i], s.nodes[i].peers[p];
    var f, args := s.nodes[j], MakeAppendEntries(n, p);
    assert NodeOk(s, i) && NodeOk(s, j) && NodeLogOk(s.history, n) && NodeLogOk(s.history, f);
    ExchangeNodes(s, i, p);
    var reply := HandleAppendEntries(f, args).1;
    LeaderAfter(n, j, p, reply);
    if reply.success {
      assert LeaderLogOk(s.history, n.currentTerm);
      AcceptanceReplicates(s.history, n, f, p);
    } else {
      RejectionLowers(s.history, n, f, p);
    }
  }

  /** An exchange is careful in all its three events: its reply meets the log its request was
      made from, because nothing came in between. */
  lemma ExchangeIsCareful(s: Cluster, i: int, p: nat)
    requires ElectionInv(s) && LogInv(s) && Ready(s, i, p)
    ensures var j, args := s.nodes[i].peers[p], MakeAppendEntries(s.nodes[i], p);
      var reply := HandleAppendEntries(s.nodes[j], args).1;
      var e1, e2 := SendAppend(i, p), DeliverAppend(AppendRequest(i, j, args));
      var e3 := DeliverAppendReply(AppendReply(j, i, reply, args));
      && Enabled(s, e1) && Careful(s, e1)
      && Enabled(Step(s, e1), e2) && Careful(Step(s, e1), e2)
      && Enabled(Step(Step(s, e1), e2), e3) && Careful(Step(Step(s, e1), e2), e3)
      && Step(Step(Step(s, e1), e2), e3) == Exchange(s, i, p)
  {
    ExchangeIsThreeEvents(s, i, p);
    ReplyIsFresh(s, i, p);
  }

  lemma ReplyIsFresh(s: Cluster, i: int, p: nat)
    requires ElectionInv(s) && LogInv(s) && Ready(s, i, p)
    ensures var j, args := s.nodes[i].peers[p], MakeAppendEntries(s.nodes[i], p);
      var request, reply := AppendRequest(i, j, args), AppendReply(j, i, HandleAppendEntries(s.nodes[j], args).1, args);
      var s2 := OnAppend(Send(s, request), request);
      Enabled(s2, DeliverAppendReply(reply)) && Careful(s2, DeliverAppendReply(reply))
  {
    var n, j := s.nodes[i], s.nodes[i].peers[p];
    assert NodeOk(s, i) && NodeOk(s, j) && NodeLogOk(s.history, n) && NodeLogOk(s.history, s.nodes[j]);
    MadeRequestOk(s.history, n, p);
    if HandleAppendEntries(s.nodes[j], MakeAppendEntries(n, p)).1.success {
      AcceptedLog(s.nodes[j], MakeAppendEntries(n, p));
      SuccessCarriesSlice(s.history, s.nodes[j], MakeAppendEntries(n, p));
    }
  }

  ghost predicate ExchangeAt(chain: seq<Cluster>, i: int, p: nat, k: nat)
    requires k + 1 < |chain|
  {
    Ready(chain[k], i, p) && chain[k + 1] == Exchange(chain[k], i, p)
  }

  /** Exchanges of node i with its peer number p, one after the other. */
  ghost predicate IsExchangeChain(chain: seq<Cluster>, i: int, p: nat) {
    |chain| >= 1 && forall k :: 0 <= k < |chain| - 1 ==> ExchangeAt(chain, i, p, k)
  }

  ghost predicate Sound(s: Cluster, i: int, p: nat) {
    ElectionInv(s) && LogInv(s) && Ready(s, i, p)
  }

  lemma OneExchange(s: Cluster, i: int, p: nat) returns (s': Cluster)
    requires Sound(s, i, p)
    ensures Sound(s', i, p) && (Replicated(s', i, p) || s'.nodes[i].nextIndex[p] < s.nodes[i].nextIndex[p])
    ensures s'.nodes[i].log == s.nodes[i].log
    ensures s' == Exchange(s, i, p)
  {
    ExchangeProgress(s, i, p);
    ExchangeKeepsInv(s, i, p);
    s' := Exchange(s, i, p);
  }

  lemma PrependExchange(s: Cluster, rest: seq<Cluster>, i: int, p: nat)
    requires Ready(s, i, p) && IsExchangeChain(rest, i, p) && rest[0] == Exchange(s, i, p)
    ensures IsExchangeChain([s] + rest, i, p)
  {
    forall k | 0 <= k < |[s] + rest| - 1 ensures ExchangeAt([s] + rest, i, p, k) {
      if k > 0 {
        assert ExchangeAt(rest, i, p, k - 1);
      }
    }
  }

  lemma {:induction false} ExchangesReplicate(s: Cluster, i: int, p: nat, bound: nat) returns (chain: seq<Cluster>)
    requires Sound(s, i, p) && s.nodes[i].nextIndex[p] <= bound
    ensures IsExchangeChain(chain, i, p) && chain[0] == s && 2 <= |chain| <= bound + 1
    ensures Replicated(chain[|chain| - 1], i, p) && chain[|chain| - 1].nodes[i].log == s.nodes[i].log
    decreases bound
  {
    hide Exchange, ElectionInv, LogInv, ExchangeAt;
    var s' := OneExchange(s, i, p);
    var rest := [s'];
    if !Replicated(s', i, p) {
      rest := ExchangesReplicate(s', i, p, bound - 1);
    }
    PrependExchange(s, rest, i, p);
    chain := [s] + rest;
  }

  /** Backoff terminates: from every state of every run, crashes and lost messages included,
      a leader whose peer is not ahead of its term has its whole log on that peer after at
      most nextIndex undisturbed exchanges. */
  lemma BackoffTerminates(states: seq<Cluster>, events: seq<Event>, t: nat, i: int, p: nat)
    returns (chain: seq<Cluster>)
    requires IsRun(states, events) && t < |states| && Ready(states[t], i, p)
    ensures IsExchangeChain(chain, i, p) && chain[0] == states[t]
    ensures 1 <= |chain| - 1 <= states[t].nodes[i].nextIndex[p]
    ensures Replicated(chain[|chain| - 1], i, p)
    ensures chain[|chain| - 1].nodes[i].log == states[t].nodes[i].log
  {
    RunLogInv(states, events, t);
    chain := ExchangesReplicate(states[t], i, p, states[t].nodes[i].nextIndex[p]);
  }
}
