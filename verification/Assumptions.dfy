/**
 Why careful runs: on the unrestricted network the program loses committed entries and lets
 two nodes apply different commands.  For each of the two conditions of a careful run there
 is a run that breaks it in one event and is careful otherwise.
 */
module Assumptions {
  import opened RaftLog
  import opened RaftSpec
  import opened Cluster
  import opened Scenarios

  /** A committed entry was lost: node i, leading, moved its commit index between a and
      a + 1, and later node j leads a later term without the committed entries. */
  ghost predicate LosesACommit(states: seq<Cluster>, a: nat, i: int, b: nat, j: int) {
    && a + 1 < b < |states|
    && i in states[a].nodes && i in states[a + 1].nodes && j in states[b].nodes
    && states[a].nodes[i].role == Leader && states[a + 1].nodes[i].role == Leader
    && states[a + 1].nodes[i].commitIndex > states[a].nodes[i].commitIndex
    && states[b].nodes[j].role == Leader && states[b].nodes[j].currentTerm > states[a].nodes[i].currentTerm
    && !Agree(states[b].nodes[j].log, states[a + 1].nodes[i].log, states[a + 1].nodes[i].commitIndex + 1)
  }

  // --- A stale success reply ---

  const Heartbeat: AppendRequestArgs := AppendEntriesArgs(1, 0, 0, 0, [], 0)

  /** Node 1 answers a heartbeat of node 0. */
  lemma HeartbeatAnswered(x: nat) returns (states: seq<Cluster>, events: seq<Event>)
    requires x >= 6
    ensures IsRunBut(states, events, x) && |states| == 7
    ensures Leads(Last(states), 0, [1, 2], 1, [SENTINEL], [1, 1], [0, 0], 0)
    ensures Follows(Last(states), 1, [0, 2], 1, [SENTINEL])
    ensures 2 in Last(states).nodes && Last(states).nodes[2] == NewNode(2, [0, 1])
    ensures AppendReply(1, 0, AppendEntriesReply(1, true, -1, -1), Heartbeat) in Last(states).net
  {
    var s4, e4 := FirstLeader(x);
    assert MakeAppendEntries(Last(s4).nodes[0], 0) == Heartbeat;
    var s5, e5 := Extend(s4, e4, x, SendAppend(0, 0));
    states, events := Extend(s5, e5, x, DeliverAppend(AppendRequest(0, 1, Heartbeat)));
  }

  /** Node 0 appends x and then counts the heartbeat's reply for it. */
  lemma StaleReplyCounted() returns (states: seq<Cluster>, events: seq<Event>)
    ensures IsRunBut(states, events, 7) && |states| == 9
    ensures Leads(states[7], 0, [1, 2], 1, [SENTINEL, Entry(1, "x")], [1, 1], [0, 0], 0)
    ensures Leads(states[8], 0, [1, 2], 1, [SENTINEL, Entry(1, "x")], [2, 1], [1, 0], 1)
    ensures Follows(states[8], 1, [0, 2], 1, [SENTINEL])
    ensures 2 in states[8].nodes && states[8].nodes[2] == NewNode(2, [0, 1])
  {
    var s6, e6 := HeartbeatAnswered(7);
    var s7, e7 := Extend(s6, e6, 7, ClientAppend(0, "x"));
    assert Last(s7).nodes[0].log == [SENTINEL, Entry(1, "x")];
    states, events := CountFirst(s7, e7, 7, 0, [1, 2], 1, 0, "x", Heartbeat);
    assert states[7] == Last(s7);
  }

  /** Node 1 is elected over it by node 2. */
  lemma StaleReplySucceeded() returns (states: seq<Cluster>, events: seq<Event>)
    ensures IsRunBut(states, events, 7) && |states| == 13
    ensures Leads(states[7], 0, [1, 2], 1, [SENTINEL, Entry(1, "x")], [1, 1], [0, 0], 0)
    ensures Leads(states[8], 0, [1, 2], 1, [SENTINEL, Entry(1, "x")], [2, 1], [1, 0], 1)
    ensures Leads(states[12], 0, [1, 2], 1, [SENTINEL, Entry(1, "x")], [2, 1], [1, 0], 1)
    ensures Leads(states[12], 1, [0, 2], 2, [SENTINEL], [1, 1], [0, 0], 0)
    ensures Follows(states[12], 2, [0, 1], 2, [SENTINEL])
  {
    var s8, e8 := StaleReplyCounted();
    assert |e8| == 8;
    hide IsRunBut, Step, Enabled, Careful;
    states, events := Elect(s8, e8, 7, 1, 2);
    assert states[7] == s8[7] && states[8] == s8[8];
  }

  /** A stale success reply: the leader sends a heartbeat, appends a command, and then counts
      the heartbeat's reply for the command.  It commits an entry only it holds; node 1
      becomes the next leader without it.  Every other event is careful. */
  lemma StaleReplyLosesACommit() returns (states: seq<Cluster>, events: seq<Event>)
    ensures IsRun(states, events) && LosesACommit(states, 7, 0, |states| - 1, 1)
    ensures forall k :: 0 <= k < |events| ==> (CarefulAt(states, events, k) <==> k != 7)
  {
    states, events := StaleReplySucceeded();
  }

  /** State Machine Safety fails as well: after the same stale reply node 0 applies x as its
      first command and node 1, the next leader, commits and applies y as its first. */
  lemma StaleReplySplitsApplied() returns (states: seq<Cluster>, events: seq<Event>)
    ensures IsRun(states, events)
    ensures forall k :: 0 <= k < |events| ==> (CarefulAt(states, events, k) <==> k != 7)
    ensures var s := Last(states);
      && 0 in s.nodes && 1 in s.nodes
      && !(s.nodes[0].applied <= s.nodes[1].applied) && !(s.nodes[1].applied <= s.nodes[0].applied)
  {
    var s12, e12 := StaleReplySucceeded();
    assert Follows(Last(s12), 2, [0, 1], 2, [SENTINEL]);
    var s16, e16 := CommitRound(s12, e12, 7, 1, [0, 2], 2, 1, "y");
    var s17, e17 := Extend(s16, e16, 7, Apply(0));
    states, events := Extend(s17, e17, 7, Apply(1));
    AppliesFirst(Last(s16).nodes[0], "x");
    AppliesFirst(Last(s16).nodes[1], "y");
    NeitherStarts();
  }

  lemma NeitherStarts()
    ensures !(["x"] <= ["y"]) && !(["y"] <= ["x"])
  {
    assert ["x"][0] != ["y"][0] by { assert "x"[0] != "y"[0]; }
  }

  lemma AppliesFirst(n: Node, command: string)
    requires |n.log| == 2 && n.log[1].command == command
    requires n.commitIndex == 1 && n.lastApplied == 0 && n.applied == []
    ensures ApplyCommitted(n).applied == [command]
  {
  }

  // --- An early crash ---

  /** Node 0 commits x with node 1's help; its own copy is only in memory. */
  lemma CommittedInMemory() returns (states: seq<Cluster>, events: seq<Event>)
    ensures IsRunBut(states, events, 8) && |states| == 9
    ensures Leads(states[7], 0, [1, 2], 1, [SENTINEL, Entry(1, "x")], [1, 1], [0, 0], 0)
    ensures Leads(states[8], 0, [1, 2], 1, [SENTINEL, Entry(1, "x")], [2, 1], [1, 0], 1)
    ensures states[8].nodes[0].disk == Disk(1, 0, [SENTINEL])
    ensures 2 in states[8].nodes && states[8].nodes[2] == NewNode(2, [0, 1])
  {
    var s4, e4 := FirstLeader(8);
    assert Follows(Last(s4), 1, [0, 2], 1, [SENTINEL]);
    states, events := CommitRound(s4, e4, 8, 0, [1, 2], 1, 0, "x");
  }

  /** A crash before the leader's own append reaches its disk: the entry was committed with
      the leader's memory counted as a copy, and the restarted leader is elected again
      without it.  Every other event is careful, replies included. */
  lemma EarlyCrashLosesACommit() returns (states: seq<Cluster>, events: seq<Event>)
    ensures IsRun(states, events) && LosesACommit(states, 7, 0, |states| - 1, 0)
    ensures forall k :: 0 <= k < |events| ==> (CarefulAt(states, events, k) <==> k != 8)
  {
    var s8, e8 := CommittedInMemory();
    var s9, e9 := Extend(s8, e8, 8, Crash(0));
    states, events := Elect(s9, e9, 8, 0, 2);
    assert states[7] == s8[7] && states[8] == s8[8];
  }
}
