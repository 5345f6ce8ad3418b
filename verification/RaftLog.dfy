/**
 The replicated log (include/raft/log_entry.h) and the four RPC messages
 (include/raft/rpc_messages.h), as values.  Terms, indices and node ids are
 unbounded integers.  Position 0 of every log holds the sentinel entry.
 */
module RaftLog {

  datatype LogEntry = LogEntry(term: int, command: string, index: int)

  const SENTINEL := LogEntry(0, "", 0)

  datatype RequestVoteArgs = RequestVoteArgs(term: int, candidateId: int, lastLogIndex: int, lastLogTerm: int)

  datatype RequestVoteReply = RequestVoteReply(term: int, voteGranted: bool)

  datatype AppendEntriesArgs = AppendEntriesArgs(
    term: int, leaderId: int, prevLogIndex: int, prevLogTerm: int, entries: seq<LogEntry>, leaderCommit: int)

  datatype AppendEntriesReply = AppendEntriesReply(term: int, success: bool, conflictIndex: int, conflictTerm: int)

  // A request whose first entry goes into a real log position.
  type AppendRequestArgs = a: AppendEntriesArgs | a.prevLogIndex >= 0 witness AppendEntriesArgs(0, 0, 0, 0, [], 0)

  function LastIndex(log: seq<LogEntry>): int {
    |log| - 1
  }

  function LastTerm(log: seq<LogEntry>): int {
    if log == [] then 0 else log[|log| - 1].term
  }

  /** The two logs hold the same first n entries. */
  predicate Agree(a: seq<LogEntry>, b: seq<LogEntry>, n: nat) {
    n <= |a| && n <= |b| && forall k :: 0 <= k < n ==> a[k] == b[k]
  }

  /** A log as the protocol builds it: the sentinel, then entries that know their
      own position and whose terms start at 1, never decrease and stay within bound. */
  ghost predicate WellFormed(log: seq<LogEntry>, bound: int) {
    && |log| >= 1
    && log[0] == SENTINEL
    && (forall k :: 1 <= k < |log| ==> log[k].index == k && 1 <= log[k].term <= bound)
    && (forall j, k :: 0 <= j <= k < |log| ==> log[j].term <= log[k].term)
  }

  // --- The merge loop of handleAppendEntries, in functional form ---

  /** Offset of the first received entry that is not already in the log: it lies past
      the end or differs in term from what is there; |entries| when there is none. */
  function FirstDifference(log: seq<LogEntry>, start: nat, entries: seq<LogEntry>): (d: nat)
    ensures d <= |entries|
    ensures start <= |log| ==> start + d <= |log|
    decreases |entries|
  {
    if entries == [] || start >= |log| || log[start].term != entries[0].term then 0
    else 1 + FirstDifference(log, start + 1, entries[1..])
  }

  lemma {:induction false} DifferenceMeaning(log: seq<LogEntry>, start: nat, entries: seq<LogEntry>)
    ensures var d := FirstDifference(log, start, entries);
      && (forall i :: 0 <= i < d ==> start + i < |log| && log[start + i].term == entries[i].term)
      && (d < |entries| ==> start + d >= |log| || log[start + d].term != entries[d].term)
    decreases |entries|
  {
    var d := FirstDifference(log, start, entries);
    if d > 0 {
      DifferenceMeaning(log, start + 1, entries[1..]);
      forall i | 0 <= i < d ensures start + i < |log| && log[start + i].term == entries[i].term {
        if i > 0 { assert entries[1..][i - 1] == entries[i]; }
      }
    }
  }

  lemma DifferenceAt(log: seq<LogEntry>, start: nat, entries: seq<LogEntry>, i: nat)
    requires i < |entries|
    ensures var d := FirstDifference(log, start, entries);
      && (i < d ==> start + i < |log| && log[start + i].term == entries[i].term)
      && (i == d ==> start + i >= |log| || log[start + i].term != entries[i].term)
  {
    DifferenceMeaning(log, start, entries);
  }

  /** The entry before the difference matches, and the one there does not. */
  lemma AtDifference(log: seq<LogEntry>, start: nat, entries: seq<LogEntry>)
    ensures var d := FirstDifference(log, start, entries);
      && (d > 0 ==> start + d - 1 < |log| && log[start + d - 1].term == entries[d - 1].term)
      && (d < |entries| ==> start + d >= |log| || log[start + d].term != entries[d].term)
  {
    DifferenceMeaning(log, start, entries);
    var d := FirstDifference(log, start, entries);
    assert d > 0 ==> log[start + (d - 1)].term == entries[d - 1].term;
  }

  /** The entries with their index fields set to the positions they are stored at. */
  function Numbered(entries: seq<LogEntry>, start: nat): (r: seq<LogEntry>)
    ensures |r| == |entries|
    ensures forall i :: 0 <= i < |r| ==> r[i] == entries[i].(index := start + i)
  {
    seq(|entries|, i requires 0 <= i < |entries| => entries[i].(index := start + i))
  }

  /** The log after receiving entries for the positions from start on. */
  function Merge(log: seq<LogEntry>, start: nat, entries: seq<LogEntry>): seq<LogEntry>
    requires start <= |log|
  {
    var d := FirstDifference(log, start, entries);
    if d == |entries| then log else log[..start + d] + Numbered(entries[d..], start + d)
  }

  /** The first n received entries are all in the log already, as far as terms can tell. */
  predicate FirstMatch(log: seq<LogEntry>, start: nat, entries: seq<LogEntry>, n: nat)
    requires n <= |entries|
  {
    forall i :: 0 <= i < n ==> start + i < |log| && log[start + i].term == entries[i].term
  }

  predicate FromEither(log: seq<LogEntry>, start: nat, entries: seq<LogEntry>, merged: seq<LogEntry>, i: nat)
    requires i < |entries| && start + i < |merged|
  {
    if FirstMatch(log, start, entries, i + 1) then start + i < |log| && merged[start + i] == log[start + i]
    else merged[start + i] == entries[i].(index := start + i)
  }

  /** What merging does, position by position: a log that has everything is left alone, even
      where it is longer; otherwise it ends with the received entries, and each position has
      the old entry as long as everything up to it matched and else the received one, which
      then knows its position. */
  lemma MergeMeaning(log: seq<LogEntry>, start: nat, entries: seq<LogEntry>)
    requires start <= |log|
    ensures var merged := Merge(log, start, entries);
      && (merged == log <==> FirstMatch(log, start, entries, |entries|))
      && (merged != log ==> |merged| == start + |entries|)
      && (forall k :: 0 <= k < start ==> merged[k] == log[k])
      && (merged != log ==> forall i :: 0 <= i < |entries| ==>
            FromEither(log, start, entries, merged, i))
  {
    var d, merged := FirstDifference(log, start, entries), Merge(log, start, entries);
    DifferenceMeaning(log, start, entries);
    if d < |entries| {
      assert merged[start + d] == entries[d].(index := start + d);
      forall i | 0 <= i < |entries|
        ensures FromEither(log, start, entries, merged, i)
      {
        assert FirstMatch(log, start, entries, i + 1) <==> i < d;
        if i >= d { assert merged[start + i] == Numbered(entries[d..], start + d)[i - d]; }
      }
    }
  }

  /** First position of the run of equal terms that ends at k, not below 1. */
  function ConflictStart(log: seq<LogEntry>, k: nat): (r: nat)
    requires k < |log|
    ensures r <= k && (k >= 1 ==> r >= 1)
    ensures forall j :: r <= j <= k ==> log[j].term == log[k].term
    ensures r > 1 ==> log[r - 1].term != log[k].term
  {
    if k > 1 && log[k - 1].term == log[k].term then ConflictStart(log, k - 1) else k
  }

  /** Last position in 1..k whose entry has the given term, or -1. */
  function LastOfTerm(log: seq<LogEntry>, k: int, term: int): (r: int)
    requires k < |log|
    ensures r == -1 || (1 <= r <= k && log[r].term == term)
    ensures forall j :: 1 <= j <= k && j > r ==> log[j].term != term
    decreases k
  {
    if k < 1 then -1
    else if log[k].term == term then k
    else LastOfTerm(log, k - 1, term)
  }

  function Commands(log: seq<LogEntry>, from: nat, to: int): (r: seq<string>)
    requires to <= |log|
    ensures |r| == if from <= to then to - from else 0
    ensures forall k :: 0 <= k < |r| ==> r[k] == log[from + k].command
  {
    if to <= from then [] else seq(to - from, k requires 0 <= k < to - from => log[from + k].command)
  }
}
