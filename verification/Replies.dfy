/**
 What a success reply is worth.  A leader records its own last index for the follower, as
 of when the reply arrives; this module says exactly when that record is true.
 */
module Replies {
  import opened RaftLog
  import opened RaftSpec
  import opened LogMatching

  ghost predicate Indexed(log: seq<LogEntry>) {
    && |log| >= 1 && log[0] == SENTINEL
    && forall k :: 1 <= k < |log| ==> log[k].index == k
  }

  /** A request that the leader with this log could have made in its term, perhaps before
      its last entries were appended. */
  ghost predicate PartOf(args: AppendRequestArgs, log: seq<LogEntry>) {
    && args.prevLogIndex + |args.entries| < |log|
    && args.entries == log[args.prevLogIndex + 1..args.prevLogIndex + 1 + |args.entries|]
    && args.prevLogTerm == (if args.prevLogIndex == 0 then 0 else log[args.prevLogIndex].term)
  }

  ghost predicate MatchAt(a: seq<LogEntry>, b: seq<LogEntry>, k: nat)
    requires k < |a| && k < |b|
  {
    a[k].term == b[k].term ==> Agree(a, b, k + 1)
  }

  /** Log Matching for two logs. */
  ghost predicate Matching(a: seq<LogEntry>, b: seq<LogEntry>) {
    forall k :: 1 <= k < |a| && k < |b| ==> MatchAt(a, b, k)
  }

  ghost predicate Accepts(f: seq<LogEntry>, log: seq<LogEntry>, args: AppendRequestArgs) {
    && |f| >= 1 && f[0] == SENTINEL && Matching(f, log)
    && args.prevLogIndex < |f| && Matches(f, args.prevLogIndex, args.prevLogTerm)
  }

  /** Every follower log that accepts the request holds the leader's first length entries
      once it has merged it. */
  ghost predicate Licenses(args: AppendRequestArgs, log: seq<LogEntry>, length: nat) {
    forall f: seq<LogEntry> :: Accepts(f, log, args) ==> Reaches(f, log, args, length)
  }

  ghost predicate Reaches(f: seq<LogEntry>, log: seq<LogEntry>, args: AppendRequestArgs, length: nat)
    requires args.prevLogIndex < |f|
  {
    Agree(Merge(f, args.prevLogIndex + 1, args.entries), log, length)
  }

  lemma MatchedTo(f: seq<LogEntry>, log: seq<LogEntry>, k: nat)
    requires Matching(f, log) && 1 <= k < |f| && k < |log| && f[k].term == log[k].term
    ensures Agree(f, log, k + 1)
  {
    assert MatchAt(f, log, k);
  }

  lemma AgreesToDifference(f: seq<LogEntry>, log: seq<LogEntry>, args: AppendRequestArgs)
    requires Indexed(log) && PartOf(args, log) && Accepts(f, log, args)
    ensures Agree(f, log, args.prevLogIndex + 1 + FirstDifference(f, args.prevLogIndex + 1, args.entries))
  {
    hide FirstDifference, Matching, Agree;
    var prev := args.prevLogIndex;
    var d := FirstDifference(f, prev + 1, args.entries);
    AtDifference(f, prev + 1, args.entries);
    if d > 0 {
      assert args.entries[d - 1] == log[prev + d];
      MatchedTo(f, log, prev + d);
    } else if prev > 0 {
      MatchedTo(f, log, prev);
    } else {
      SentinelsAgree(f, log);
    }
  }

  lemma SentinelsAgree(f: seq<LogEntry>, log: seq<LogEntry>)
    requires |f| >= 1 && |log| >= 1 && f[0] == SENTINEL == log[0]
    ensures Agree(f, log, 1)
  {
  }

  lemma PrefixReaches(merged: seq<LogEntry>, log: seq<LogEntry>, n: nat)
    requires n <= |log| && merged == log[..n]
    ensures Agree(merged, log, n)
  {
  }

  lemma MergeReachesFrom(f: seq<LogEntry>, log: seq<LogEntry>, start: nat, entries: seq<LogEntry>, end: nat)
    requires Indexed(log) && 1 <= start <= |f| && end == start + |entries| <= |log|
    requires entries == log[start..end]
    requires Agree(f, log, start + FirstDifference(f, start, entries))
    ensures Agree(Merge(f, start, entries), log, end)
  {
    hide FirstDifference, Agree, Merge;
    if FirstDifference(f, start, entries) < |entries| {
      assert entries == log[start..start + |entries|];
      MergeTakesLeaders(log, f, start, entries);
      PrefixReaches(Merge(f, start, entries), log, end);
    } else {
      NothingNew(f, start, entries);
    }
  }

  lemma NothingNew(log: seq<LogEntry>, start: nat, entries: seq<LogEntry>)
    requires start <= |log| && FirstDifference(log, start, entries) == |entries|
    ensures Merge(log, start, entries) == log
  {
    hide FirstDifference;
  }

  lemma MergeReaches(f: seq<LogEntry>, log: seq<LogEntry>, args: AppendRequestArgs)
    requires Indexed(log) && PartOf(args, log) && Accepts(f, log, args)
    ensures Reaches(f, log, args, End(args))
  {
    AgreesToDifference(f, log, args);
    MergeReachesFrom(f, log, args.prevLogIndex + 1, args.entries, End(args));
  }

  lemma NothingToMerge(log: seq<LogEntry>, start: nat, entries: seq<LogEntry>)
    requires start + |entries| == |log| && entries == log[start..]
    ensures Merge(log, start, entries) == log
  {
    hide FirstDifference, Numbered, Merge;
    assert forall k :: 0 <= k < |entries| ==> entries[k] == log[start + k];
    AtDifference(log, start, entries);
    NothingNew(log, start, entries);
  }

  /** A follower that held exactly what the request carries keeps its log as it is. */
  lemma ShortestFollower(args: AppendRequestArgs, log: seq<LogEntry>)
    requires Indexed(log) && PartOf(args, log)
    ensures Accepts(log[..End(args)], log, args)
    ensures Merge(log[..End(args)], args.prevLogIndex + 1, args.entries) == log[..End(args)]
  {
    hide Merge;
    NothingToMerge(log[..End(args)], args.prevLogIndex + 1, args.entries);
  }

  lemma ReachesLess(f: seq<LogEntry>, log: seq<LogEntry>, args: AppendRequestArgs, length: nat)
    requires args.prevLogIndex < |f| && Reaches(f, log, args, End(args)) && length <= End(args)
    ensures Reaches(f, log, args, length)
  {
  }

  /** A success reply is worth exactly what its request carried, not a position more. */
  lemma SuccessLicenses(args: AppendRequestArgs, log: seq<LogEntry>, length: nat)
    requires Indexed(log) && PartOf(args, log)
    ensures Licenses(args, log, length) <==> length <= End(args)
  {
    if length <= End(args) {
      forall f | Accepts(f, log, args) ensures Reaches(f, log, args, length) {
        MergeReaches(f, log, args);
        ReachesLess(f, log, args, length);
      }
    } else {
      ShortestFollower(args, log);
      assert !Reaches(log[..End(args)], log, args, length);
    }
  }

  /** The matchIndex recorded for a success reply is true of every follower that can have
      sent it if and only if the request reached the leader's present last entry. */
  lemma RecordedMatchIsTrue(n: Node, follower: int, reply: AppendEntriesReply, args: AppendRequestArgs)
    requires n.role == Leader && reply.success && reply.term <= n.currentTerm && follower in n.peers
    requires Indexed(n.log) && PartOf(args, n.log)
    ensures var n' := HandleAppendEntriesResponse(n, follower, reply).0;
            var recorded := n'.matchIndex[PeerIndex(n.peers, follower)];
            recorded >= 0
            && (Licenses(args, n.log, recorded + 1) <==> args.prevLogIndex + |args.entries| == LastIndex(n.log))
  {
    SuccessLicenses(args, n.log, LastIndex(n.log) + 1);
  }
}
