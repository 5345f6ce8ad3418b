/**
 The downward scan of updateCommitIndex: what a count of matchIndex values means, and the
 scan as an order statistic.
 */
module CommitCounting {
  import opened RaftLog
  import opened RaftSpec
  import opened Cluster
  import opened ElectionSafety

  // --- The count is the size of a set of nodes ---

  lemma MatchedLast(peers: seq<int>, values: seq<int>, k: int)
    requires |peers| == |values| > 0 && Distinct(peers)
    ensures var n := |peers| - 1; var front := Matched(peers[..n], values[..n], k);
      && peers[n] !in front
      && Matched(peers, values, k) == if values[n] >= k then front + {peers[n]} else front
  {
    var n := |peers| - 1;
    var all, front := Matched(peers, values, k), Matched(peers[..n], values[..n], k);
    forall q | q in front ensures q in all && q != peers[n] {
      var p :| 0 <= p < n && values[..n][p] >= k && peers[..n][p] == q;
      assert values[p] >= k && peers[p] == q;
    }
    forall q | q in all ensures q in front || (q == peers[n] && values[n] >= k) {
      var p :| 0 <= p <= n && values[p] >= k && peers[p] == q;
      if p < n { assert values[..n][p] >= k && peers[..n][p] == q; }
    }
    if values[n] >= k { assert peers[n] in all; }
  }

  lemma {:induction false} CountIsSize(peers: seq<int>, values: seq<int>, k: int)
    requires |peers| == |values| && Distinct(peers)
    ensures |Matched(peers, values, k)| == CountAtLeast(values, k)
    decreases |peers|
  {
    if peers == [] {
      assert Matched(peers, values, k) == {};
    } else {
      var n := |peers| - 1;
      CountIsSize(peers[..n], values[..n], k);
      MatchedLast(peers, values, k);
    }
  }

  /** The nodes behind a count: the leader and the peers matched that far, each counted once. */
  lemma HoldersSize(s: Cluster, i: int, n: Node, k: int)
    requires i in s.nodes && n.id == i && PeersOk(s.nodes.Keys, i, n.peers)
    ensures |Holders(n, k)| == 1 + CountAtLeast(n.matchIndex, k) && Holders(n, k) <= s.nodes.Keys
  {
    CountIsSize(n.peers, n.matchIndex, k);
    var matched := Matched(n.peers, n.matchIndex, k);
    PeersAreOthers(s.nodes.Keys, i, n.peers);
    assert forall p :: 0 <= p < |n.peers| ==> n.peers[p] in n.peers;
    assert i !in matched;
    assert Holders(n, k) == {i} + matched;
  }

  // --- The scan as an order statistic ---

  /** x at its place in descending values. */
  function Insert(x: int, s: seq<int>): (r: seq<int>)
    ensures |r| == |s| + 1
  {
    if s == [] || s[|s| - 1] >= x then s + [x] else Insert(x, s[..|s| - 1]) + [s[|s| - 1]]
  }

  /** The values in descending order. */
  function Descending(values: seq<int>): (r: seq<int>)
    ensures |r| == |values|
  {
    if values == [] then [] else Insert(values[|values| - 1], Descending(values[..|values| - 1]))
  }

  ghost predicate IsDescending(s: seq<int>) {
    forall a :: 1 <= a < |s| ==> s[a - 1] >= s[a]
  }

  lemma {:induction false} InsertPermutes(x: int, s: seq<int>)
    ensures multiset(Insert(x, s)) == multiset(s) + multiset{x}
  {
    if s != [] && s[|s| - 1] < x {
      InsertPermutes(x, s[..|s| - 1]);
      assert s == s[..|s| - 1] + [s[|s| - 1]];
    }
  }

  lemma {:induction false} InsertDescends(x: int, s: seq<int>)
    requires IsDescending(s)
    ensures IsDescending(Insert(x, s))
    ensures Insert(x, s)[|s|] == if s == [] || s[|s| - 1] >= x then x else s[|s| - 1]
  {
    if s != [] && s[|s| - 1] < x {
      var front, last := s[..|s| - 1], s[|s| - 1];
      InsertDescends(x, front);
      AppendDescends(Insert(x, front), last);
    } else {
      AppendDescends(s, x);
    }
  }

  lemma AppendDescends(s: seq<int>, x: int)
    requires IsDescending(s) && (s != [] ==> s[|s| - 1] >= x)
    ensures IsDescending(s + [x])
  {
  }

  lemma {:induction false} InsertCounts(x: int, s: seq<int>, v: int)
    ensures CountAtLeast(Insert(x, s), v) == CountAtLeast(s, v) + if x >= v then 1 else 0
  {
    var r := Insert(x, s);
    if s == [] || s[|s| - 1] >= x {
      assert r[..|s|] == s;
    } else {
      InsertCounts(x, s[..|s| - 1], v);
      assert r[..|s|] == Insert(x, s[..|s| - 1]);
    }
  }

  lemma {:induction false} DescendingSorts(values: seq<int>)
    ensures IsDescending(Descending(values)) && multiset(Descending(values)) == multiset(values)
  {
    hide Insert;
    if values != [] {
      var front, last := values[..|values| - 1], values[|values| - 1];
      DescendingSorts(front);
      InsertDescends(last, Descending(front));
      InsertPermutes(last, Descending(front));
      assert values == front + [last];
    }
  }

  lemma {:induction false} DescendingCounts(values: seq<int>, v: int)
    ensures CountAtLeast(Descending(values), v) == CountAtLeast(values, v)
  {
    hide Insert;
    if values != [] {
      DescendingCounts(values[..|values| - 1], v);
      InsertCounts(values[|values| - 1], Descending(values[..|values| - 1]), v);
    }
  }

  /** Of descending values at least m reach v exactly when the m-th does. */
  lemma {:induction false} CountByRank(s: seq<int>, v: int, m: nat)
    requires IsDescending(s) && 1 <= m <= |s|
    ensures CountAtLeast(s, v) >= m <==> s[m - 1] >= v
  {
    var front := s[..|s| - 1];
    if front != [] { CountByRank(front, v, |front|); }
    if m < |s| { CountByRank(front, v, m); }
  }

  /** The m-th largest of the values. */
  function MthLargest(values: seq<int>, m: int): int
    requires 1 <= m <= |values|
  {
    Descending(values)[m - 1]
  }

  /** At least m of the values reach v exactly when the m-th largest does. */
  lemma CountMeetsRank(values: seq<int>, v: int, m: nat)
    requires 1 <= m <= |values|
    ensures CountAtLeast(values, v) >= m <==> MthLargest(values, m) >= v
  {
    DescendingSorts(values);
    DescendingCounts(values, v);
    CountByRank(Descending(values), v, m);
  }

  /** What the leader knows about the cluster: its own last index and its peers' match indices. */
  function Known(n: Node): seq<int> {
    n.matchIndex + [LastIndex(n.log)]
  }

  /** updateCommitIndex as an order statistic.  Let N be the majority-th largest known index,
      cut at the leader's last index.  If N lies above the commit index and its entry is of
      the current term the commit index becomes N, and otherwise nothing changes. */
  lemma CommitIsOrderStatistic(n: Node)
    requires n.role == Leader && |n.peers| >= 1
    requires forall j, k :: 0 <= j <= k < |n.log| ==> n.log[j].term <= n.log[k].term
    requires forall k :: 0 <= k < |n.log| ==> n.log[k].term <= n.currentTerm
    ensures 1 <= Majority(n) <= |Known(n)|
    ensures var N := Min(MthLargest(Known(n), Majority(n)), LastIndex(n.log));
      UpdateCommitIndex(n).commitIndex ==
        if N > n.commitIndex && n.log[N].term == n.currentTerm then N else n.commitIndex
    ensures UpdateCommitIndex(n) == n.(commitIndex := UpdateCommitIndex(n).commitIndex)
  {
    var last, m := LastIndex(n.log), Majority(n);
    var rank := MthLargest(Known(n), m);
    var N := Min(rank, last);
    forall k | n.commitIndex < k <= last
      ensures Committable(n, k) <==> k <= rank && n.log[k].term == n.currentTerm
    {
      CountMeetsRank(Known(n), k, m);
      assert Known(n)[..|Known(n)| - 1] == n.matchIndex;
    }
    ScanFindsHighest(n, last);
    if N > n.commitIndex && n.log[N].term == n.currentTerm {
      assert Committable(n, N);
    }
  }
}
