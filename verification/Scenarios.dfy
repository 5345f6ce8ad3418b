/**
 Building blocks for concrete runs of a cluster of three, used where a property fails and a
 run has to show it.
 */
module Scenarios {
  import opened RaftLog
  import opened RaftSpec
  import opened Cluster

  function Last(states: seq<Cluster>): Cluster
    requires states != []
  {
    states[|states| - 1]
  }

  /** A run in which every event is careful but number x (every event if x is out of range). */
  ghost predicate IsRunBut(states: seq<Cluster>, events: seq<Event>, x: nat) {
    && IsRun(states, events)
    && forall k :: 0 <= k < |events| ==> (CarefulAt(states, events, k) <==> k != x)
  }

  /** The second run continues the first. */
  predicate Continues(states: seq<Cluster>, events: seq<Event>, states': seq<Cluster>, events': seq<Event>) {
    states <= states' && events <= events'
  }

  lemma Extend(states: seq<Cluster>, events: seq<Event>, x: nat, e: Event)
    returns (states': seq<Cluster>, events': seq<Event>)
    requires IsRunBut(states, events, x) && Enabled(Last(states), e)
    requires Careful(Last(states), e) <==> |events| != x
    ensures IsRunBut(states', events', x) && Continues(states, events, states', events')
    ensures |states'| == |states| + 1 && Last(states') == Step(Last(states), e)
  {
    states' := states + [Step(Last(states), e)];
    events' := events + [e];
    forall k | 0 <= k < |events'| ensures StepAt(states', events', k) {
      if k < |events| { assert StepAt(states, events, k); }
    }
    forall k | 0 <= k < |events'| ensures CarefulAt(states', events', k) <==> k != x {
      if k < |events| { assert CarefulAt(states, events, k) <==> k != x; }
    }
  }

  /** Three nodes, none of which has done anything. */
  function ThreeNodes(): Cluster {
    Cluster(map[0 := NewNode(0, [1, 2]), 1 := NewNode(1, [0, 2]), 2 := NewNode(2, [0, 1])], {},
            History(map[], map[], map[], map[], {}))
  }

  lemma FreshNode(s: Cluster, i: int, a: int, b: int)
    requires i >= 0 && a != b && i !in {a, b} && s.nodes.Keys == {i, a, b} && s.nodes[i] == NewNode(i, [a, b])
    ensures NodeStart(s, i)
  {
    assert s.nodes[i].peers == [a, b];
  }

  lemma ThreeNodesInit()
    ensures Init(ThreeNodes())
  {
    hide NewNode, NodeStart;
    var s := ThreeNodes();
    assert s.nodes.Keys == {0, 1, 2};
    assert |s.nodes| == |s.nodes.Keys|;
    FreshNode(s, 0, 1, 2);
    FreshNode(s, 1, 0, 2);
    FreshNode(s, 2, 0, 1);
  }

  /** Node c stands for election and asks v for its vote. */
  lemma Stand(states: seq<Cluster>, events: seq<Event>, x: nat, c: int, v: int)
    returns (states': seq<Cluster>, events': seq<Event>)
    requires IsRunBut(states, events, x) && !(|events| <= x < |events| + 2)
    requires var s := Last(states);
      c in s.nodes && v in s.nodes[c].peers && s.nodes[c].currentTerm >= 0
    ensures IsRunBut(states', events', x) && Continues(states, events, states', events') && |states'| == |states| + 2
    ensures var s, s' := Last(states), Last(states');
      var n := s.nodes[c];
      && s'.nodes == s.nodes[c := StartElection(n)]
      && s'.net == s.net + {VoteRequest(c, v, RequestVoteArgs(n.currentTerm + 1, c, LastIndex(n.log), LastTerm(n.log)))}
  {
    var n := Last(states).nodes[c];
    var s1, e1 := Extend(states, events, x, Timeout(c));
    states', events' := Extend(s1, e1, x, SendVoteRequest(c, v, n.currentTerm + 1, LastIndex(n.log), LastTerm(n.log)));
  }

  /** A voter of an earlier term grants a request from an up-to-date candidate. */
  lemma Grant(states: seq<Cluster>, events: seq<Event>, x: nat, p: Packet)
    returns (states': seq<Cluster>, events': seq<Event>)
    requires IsRunBut(states, events, x) && |events| != x && Arriving(Last(states), p) && p.VoteRequest?
    requires var v := Last(states).nodes[p.dst];
      v.currentTerm < p.ask.term && UpToDate(p.ask.lastLogIndex, p.ask.lastLogTerm, v.log)
    ensures IsRunBut(states', events', x) && Continues(states, events, states', events') && |states'| == |states| + 1
    ensures var s, s' := Last(states), Last(states');
      && s'.nodes == s.nodes[p.dst := HandleRequestVote(s.nodes[p.dst], p.ask).0]
      && s'.net == s.net + {VoteReply(p.dst, p.src, RequestVoteReply(p.ask.term, true))}
  {
    states', events' := Extend(states, events, x, DeliverVoteRequest(p));
  }

  /** One vote besides its own is a majority of three. */
  lemma Wins(n: Node, v: int)
    requires |n.peers| == 2 && v != n.id
    ensures HandleVoteResponse(StartElection(n), v, RequestVoteReply(n.currentTerm + 1, true))
            == (BecomeLeader(StartElection(n)), true)
  {
    assert |{n.id} + {v}| == 2;
  }

  lemma Count(states: seq<Cluster>, events: seq<Event>, x: nat, n: Node, v: int)
    returns (states': seq<Cluster>, events': seq<Event>)
    requires IsRunBut(states, events, x) && |events| != x
    requires n.id in Last(states).nodes && Last(states).nodes[n.id] == StartElection(n)
    requires |n.peers| == 2 && v != n.id
    requires VoteReply(v, n.id, RequestVoteReply(n.currentTerm + 1, true)) in Last(states).net
    ensures IsRunBut(states', events', x) && Continues(states, events, states', events') && |states'| == |states| + 1
    ensures var s, s' := Last(states), Last(states');
      s'.nodes == s.nodes[n.id := BecomeLeader(StartElection(n))] && s'.net == s.net
  {
    Wins(n, v);
    states', events' :=
      Extend(states, events, x, DeliverVoteReply(VoteReply(v, n.id, RequestVoteReply(n.currentTerm + 1, true))));
  }

  /** Node c becomes leader with the vote of v. */
  lemma Elect(states: seq<Cluster>, events: seq<Event>, x: nat, c: int, v: int)
    returns (states': seq<Cluster>, events': seq<Event>)
    requires IsRunBut(states, events, x) && !(|events| <= x < |events| + 4)
    requires var s := Last(states);
      && c in s.nodes && v in s.nodes && c != v
      && s.nodes[c].id == c && |s.nodes[c].peers| == 2 && v in s.nodes[c].peers
      && s.nodes[c].currentTerm >= 0 && s.nodes[v].currentTerm <= s.nodes[c].currentTerm
      && UpToDate(LastIndex(s.nodes[c].log), LastTerm(s.nodes[c].log), s.nodes[v].log)
    ensures IsRunBut(states', events', x) && Continues(states, events, states', events') && |states'| == |states| + 4
    ensures var s, s' := Last(states), Last(states');
      var n := s.nodes[c];
      var ask := RequestVoteArgs(n.currentTerm + 1, c, LastIndex(n.log), LastTerm(n.log));
      && s'.nodes == s.nodes[c := BecomeLeader(StartElection(n))][v := HandleRequestVote(s.nodes[v], ask).0]
      && s.net <= s'.net
  {
    var n := Last(states).nodes[c];
    var ask := RequestVoteArgs(n.currentTerm + 1, c, LastIndex(n.log), LastTerm(n.log));
    var s2, e2 := Stand(states, events, x, c, v);
    var s3, e3 := Grant(s2, e2, x, VoteRequest(c, v, ask));
    states', events' := Count(s3, e3, x, n, v);
  }

  /** Node i leads this term with this log and this knowledge of its peers; it has committed up
      to commit and applied nothing. */
  ghost predicate Leads(s: Cluster, i: int, peers: seq<int>, term: int, log: seq<LogEntry>,
                        next: seq<int>, known: seq<int>, commit: int)
  {
    && i in s.nodes
    && var n := s.nodes[i];
    && n.role == Leader && n.id == i && n.peers == peers && n.currentTerm == term && n.log == log
    && n.nextIndex == next && n.matchIndex == known
    && n.commitIndex == commit && n.lastApplied == 0 && n.applied == []
  }

  /** Node i follows in this term with this log and believes nothing committed. */
  ghost predicate Follows(s: Cluster, i: int, peers: seq<int>, term: int, log: seq<LogEntry>) {
    && i in s.nodes
    && var n := s.nodes[i];
    && n.role == Follower && n.id == i && n.peers == peers && n.currentTerm == term && n.log == log
    && n.commitIndex == 0 && n.lastApplied == 0 && n.applied == []
  }

  /** Node 0 leads term 1 of three fresh nodes, with node 1's vote. */
  lemma FirstLeader(x: nat) returns (states: seq<Cluster>, events: seq<Event>)
    requires x >= 4
    ensures IsRunBut(states, events, x) && |states| == 5
    ensures Leads(Last(states), 0, [1, 2], 1, [SENTINEL], [1, 1], [0, 0], 0)
    ensures Last(states).nodes[0].disk == Disk(1, 0, [SENTINEL])
    ensures Follows(Last(states), 1, [0, 2], 1, [SENTINEL])
    ensures 2 in Last(states).nodes && Last(states).nodes[2] == NewNode(2, [0, 1])
  {
    hide Init, HandleRequestVote, BecomeLeader, StartElection;
    ThreeNodesInit();
    FirstElected();
    var s0: seq<Cluster>, e0: seq<Event> := [ThreeNodes()], [];
    states, events := Elect(s0, e0, x, 0, 1);
  }

  /** What the first election makes of its winner and its voter. */
  lemma FirstElected()
    ensures BecomeLeader(StartElection(NewNode(0, [1, 2]))) ==
            NewNode(0, [1, 2]).(currentTerm := 1, votedFor := 0, disk := Disk(1, 0, [SENTINEL]),
                                role := Leader, leaderId := 0)
    ensures HandleRequestVote(NewNode(1, [0, 2]), RequestVoteArgs(1, 0, 0, 0)).0 ==
            NewNode(1, [0, 2]).(currentTerm := 1, votedFor := 0, disk := Disk(1, 0, [SENTINEL]))
  {
  }

  // --- A leader of three commits its first entry ---

  function Entry(term: int, command: string): LogEntry {
    LogEntry(term, command, 1)
  }

  function FirstRequest(i: int, term: int, command: string): AppendRequestArgs {
    AppendEntriesArgs(term, i, 0, 0, [Entry(term, command)], 0)
  }

  /** With one peer known to hold position 1, a leader of three commits it. */
  lemma CommitsFirst(n: Node, q: nat, reply: AppendEntriesReply)
    requires n.role == Leader && |n.peers| == 2 && n.peers[0] != n.peers[1] && q < 2
    requires n.matchIndex == [0, 0] && n.nextIndex == [1, 1] && n.commitIndex == 0
    requires |n.log| == 2 && n.log[1].term == n.currentTerm && reply.success && reply.term <= n.currentTerm
    ensures HandleAppendEntriesResponse(n, n.peers[q], reply).0
            == n.(nextIndex := [1, 1][q := 2], matchIndex := [0, 0][q := 1], commitIndex := 1)
  {
    assert PeerIndex(n.peers, n.peers[q]) == q;
    var m := n.(matchIndex := n.matchIndex[q := 1], nextIndex := n.nextIndex[q := 2]);
    assert m.matchIndex == [0, 0][q := 1];
    OneOfTwo(q);
    assert Committable(m, 1);
  }

  lemma OneOfTwo(q: nat)
    requires q < 2
    ensures CountAtLeast([0, 0][q := 1], 1) == 1
  {
    var values := [0, 0][q := 1];
    assert values[..1][..0] == [] && |values[..1]| == 1;
    assert CountAtLeast(values[..1], 1) == if q == 0 then 1 else 0;
  }

  /** The leader appends a command and sends it to its peer number q. */
  lemma Propose(states: seq<Cluster>, events: seq<Event>, x: nat, i: int, peers: seq<int>, term: int, q: nat,
                command: string)
    returns (states': seq<Cluster>, events': seq<Event>)
    requires IsRunBut(states, events, x) && !(|events| <= x < |events| + 2) && |peers| == 2 && q < 2
    requires Leads(Last(states), i, peers, term, [SENTINEL], [1, 1], [0, 0], 0)
    ensures IsRunBut(states', events', x) && Continues(states, events, states', events') && |states'| == |states| + 2
    ensures var s, s' := Last(states), Last(states');
      && s'.nodes == s.nodes[i := s.nodes[i].(log := [SENTINEL, Entry(term, command)])]
      && AppendRequest(i, peers[q], FirstRequest(i, term, command)) in s'.net
  {
    var s1, e1 := Extend(states, events, x, ClientAppend(i, command));
    assert Last(s1).nodes[i].log == [SENTINEL, Entry(term, command)];
    assert Last(s1).nodes[i].log[1..] == [Entry(term, command)];
    states', events' := Extend(s1, e1, x, SendAppend(i, q));
  }

  /** A follower whose log is empty takes the first entry. */
  lemma Takes(f: Node, i: int, term: int, command: string)
    requires f.role == Follower && f.currentTerm == term && f.log == [SENTINEL] && f.commitIndex == 0
    ensures HandleAppendEntries(f, FirstRequest(i, term, command)).1 == AppendEntriesReply(term, true, -1, -1)
  {
  }

  lemma Deliver(states: seq<Cluster>, events: seq<Event>, x: nat, i: int, f: int, term: int, command: string)
    returns (states': seq<Cluster>, events': seq<Event>)
    requires IsRunBut(states, events, x) && |events| != x && f in Last(states).nodes
    requires AppendRequest(i, f, FirstRequest(i, term, command)) in Last(states).net
    requires var n := Last(states).nodes[f];
      n.role == Follower && n.currentTerm == term && n.log == [SENTINEL] && n.commitIndex == 0
    ensures IsRunBut(states', events', x) && Continues(states, events, states', events') && |states'| == |states| + 1
    ensures var s, s' := Last(states), Last(states');
      && (forall j :: j in s.nodes && j != f ==> j in s'.nodes && s'.nodes[j] == s.nodes[j])
      && AppendReply(f, i, AppendEntriesReply(term, true, -1, -1), FirstRequest(i, term, command)) in s'.net
  {
    Takes(Last(states).nodes[f], i, term, command);
    states', events' := Extend(states, events, x, DeliverAppend(AppendRequest(i, f, FirstRequest(i, term, command))));
  }

  /** The leader counts peer q's reply and commits position 1. */
  lemma CountFirst(states: seq<Cluster>, events: seq<Event>, x: nat, i: int, peers: seq<int>, term: int, q: nat,
                   command: string, request: AppendRequestArgs)
    returns (states': seq<Cluster>, events': seq<Event>)
    requires IsRunBut(states, events, x) && |peers| == 2 && peers[0] != peers[1] && q < 2
    requires Leads(Last(states), i, peers, term, [SENTINEL, Entry(term, command)], [1, 1], [0, 0], 0)
    requires AppendReply(peers[q], i, AppendEntriesReply(term, true, -1, -1), request) in Last(states).net
    requires |events| != x <==> request.term == term && request.prevLogIndex + |request.entries| == 1
    ensures IsRunBut(states', events', x) && Continues(states, events, states', events') && |states'| == |states| + 1
    ensures var s, s' := Last(states), Last(states');
      s'.nodes == s.nodes[i := s.nodes[i].(nextIndex := [1, 1][q := 2], matchIndex := [0, 0][q := 1], commitIndex := 1)]
  {
    var reply := AppendEntriesReply(term, true, -1, -1);
    CommitsFirst(Last(states).nodes[i], q, reply);
    states', events' := Extend(states, events, x, DeliverAppendReply(AppendReply(peers[q], i, reply, request)));
  }

  /** Proposal, delivery and reply, all undisturbed: the leader commits its first entry. */
  lemma CommitRound(states: seq<Cluster>, events: seq<Event>, x: nat, i: int, peers: seq<int>, term: int, q: nat,
                    command: string)
    returns (states': seq<Cluster>, events': seq<Event>)
    requires IsRunBut(states, events, x) && !(|events| <= x < |events| + 4)
    requires |peers| == 2 && peers[0] != peers[1] && q < 2 && peers[q] != i
    requires Leads(Last(states), i, peers, term, [SENTINEL], [1, 1], [0, 0], 0)
    requires exists others :: Follows(Last(states), peers[q], others, term, [SENTINEL])
    ensures IsRunBut(states', events', x) && Continues(states, events, states', events') && |states'| == |states| + 4
    ensures var log, before := [SENTINEL, Entry(term, command)], states'[|states| + 2];
      var s, s' := Last(states), Last(states');
      && Leads(before, i, peers, term, log, [1, 1], [0, 0], 0)
      && Leads(s', i, peers, term, log, [1, 1][q := 2], [0, 0][q := 1], 1)
      && s'.nodes[i].disk == s.nodes[i].disk
      && forall j :: j in s.nodes && j != i && j != peers[q] ==> j in s'.nodes && s'.nodes[j] == s.nodes[j]
  {
    var s2, e2 := Propose(states, events, x, i, peers, term, q, command);
    var s3, e3 := Deliver(s2, e2, x, i, peers[q], term, command);
    states', events' := CountFirst(s3, e3, x, i, peers, term, q, command, FirstRequest(i, term, command));
    assert states'[|states| + 2] == Last(s3);
  }
}
