/**
 A majority is enough.  From wherever a careful run has got to, whatever was lost, delayed or
 crashed before, the nodes of any majority can go on by themselves: one of them gets elected,
 and a command given to it is committed and applied by all of them.
 */
module Majorities {
  import opened RaftLog
  import opened RaftSpec
  import opened Cluster
  import opened ElectionSafety
  import opened LogMatching
  import opened LeaderCompleteness
  import opened Commitment
  import opened Progress

  // --- A majority elects a leader ---

  /** The node m is what the candidate n has become with the votes of these nodes. */
  ghost predicate Standing(n: Node, m: Node, got: set<int>) {
    && n.role == Candidate && n.electionTerm == n.currentTerm >= 1
    && if H.MostOf(n, |got|) then H.Leads(n, m) else m == n.(votesReceived := got)
  }

  /** v's term is older and its log no later than the candidate's. */
  ghost predicate WillVote(s: Cluster, n: Node, v: int) {
    && v in s.nodes && v in n.peers && v != n.id
    && s.nodes[v].currentTerm < n.currentTerm
    && UpToDate(LastIndex(n.log), LastTerm(n.log), s.nodes[v].log)
  }

  function Asking(n: Node): RequestVoteArgs {
    RequestVoteArgs(n.currentTerm, n.id, LastIndex(n.log), LastTerm(n.log))
  }

  lemma AskIsFree(s: Cluster, c: int, v: int, n: Node, got: set<int>)
    requires c in s.nodes && n.id == c && Standing(n, s.nodes[c], got) && WillVote(s, n, v)
    ensures var e := SendVoteRequest(c, v, n.currentTerm, LastIndex(n.log), LastTerm(n.log));
      && Enabled(s, e) && Careful(s, e) && Undisturbed(s, e)
      && Step(s, e) == Send(s, VoteRequest(c, v, Asking(n)))
  {
  }

  /** The voter gives its vote and the candidate counts it. */
  lemma VoteIsFree(s: Cluster, c: int, v: int, n: Node)
    requires v in s.nodes && n.id == c && WillVote(s, n, v) && VoteRequest(c, v, Asking(n)) in s.net
    ensures var p := VoteRequest(c, v, Asking(n));
      var e := DeliverVoteRequest(p);
      && Enabled(s, e) && Careful(s, e) && Undisturbed(s, e)
      && VoteReply(v, c, RequestVoteReply(n.currentTerm, true)) in Step(s, e).net
      && Step(s, e).nodes == s.nodes[v := HandleRequestVote(s.nodes[v], Asking(n)).0]
      && Step(s, e).nodes[v].currentTerm == n.currentTerm
  {
    hide HandleRequestVote, RecordVote;
    H.VoteAnswered(s.nodes[v], Asking(n));
  }

  lemma CountIsFree(s: Cluster, c: int, v: int, n: Node, got: set<int>)
    requires c in s.nodes && Standing(n, s.nodes[c], got)
    requires VoteReply(v, c, RequestVoteReply(n.currentTerm, true)) in s.net
    ensures var e := DeliverVoteReply(VoteReply(v, c, RequestVoteReply(n.currentTerm, true)));
      && Enabled(s, e) && Careful(s, e) && Undisturbed(s, e)
      && Step(s, e).nodes.Keys == s.nodes.Keys && Standing(n, Step(s, e).nodes[c], got + {v})
  {
    hide HandleVoteResponse, RecordElection, H.Leads;
    var reply := RequestVoteReply(n.currentTerm, true);
    H.OneMoreVote(n, s.nodes[c], H.VoteReceived(v, reply), got, got + {v});
  }

  lemma Ask(r: Run, c: int, v: int, n: Node, got: set<int>) returns (r': Run)
    requires Real(r) && c in Now(r).nodes && n.id == c
    requires Standing(n, Now(r).nodes[c], got) && WillVote(Now(r), n, v)
    ensures Goes(r, r', {c, v}) && c in Now(r').nodes && v in Now(r').nodes
    ensures Standing(n, Now(r').nodes[c], got + {v}) && Now(r').nodes[v].currentTerm == n.currentTerm
  {
    hide Step, Enabled, Careful, Undisturbed, Real, Now, Standing, Goes, HandleRequestVote;
    AskIsFree(Now(r), c, v, n, got);
    var r1 := Go(r, SendVoteRequest(c, v, n.currentTerm, LastIndex(n.log), LastTerm(n.log)));
    GoesSame(r, r1, {c});
    VoteIsFree(Now(r1), c, v, n);
    var r2 := Go(r1, DeliverVoteRequest(VoteRequest(c, v, Asking(n))));
    GoesSame(r1, r2, {v});
    CountIsFree(Now(r2), c, v, n, got);
    r' := Go(r2, DeliverVoteReply(VoteReply(v, c, RequestVoteReply(n.currentTerm, true))));
    GoesSame(r2, r', {c});
    GoesWider(r, r1, {c}, {c, v});
    GoesWider(r1, r2, {v}, {c, v});
    GoesWider(r2, r', {c}, {c, v});
    GoesOn(r, r1, r2, {c, v});
    GoesOn(r, r2, r', {c, v});
  }

  lemma Pick(vs: set<int>) returns (v: int)
    requires vs != {}
    ensures v in vs
  {
    if forall x :: x !in vs { assert false; }
    v :| v in vs;
  }

  lemma {:induction false} AskAll(r: Run, c: int, vs: set<int>, n: Node, got: set<int>) returns (r': Run)
    requires Real(r) && c in Now(r).nodes && n.id == c && Standing(n, Now(r).nodes[c], got)
    requires forall v :: v in vs ==> WillVote(Now(r), n, v)
    ensures Goes(r, r', {c} + vs) && c in Now(r').nodes && Standing(n, Now(r').nodes[c], got + vs)
    ensures forall v :: v in vs ==> v in Now(r').nodes && Now(r').nodes[v].currentTerm == n.currentTerm
    decreases |vs|
  {
    hide Real, Now, Standing, Goes, UpToDate, SameBut;
    if vs == {} {
      r' := r;
      Stays(r, {c});
      assert got + vs == got && {c} + vs == {c};
    } else {
      var v := Pick(vs);
      var rest := vs - {v};
      var r1 := AskAll(r, c, rest, n, got);
      GoesSame(r, r1, {c} + rest);
      assert WillVote(Now(r), n, v);
      r' := Ask(r1, c, v, n, got + rest);
      GoesSame(r1, r', {c, v});
      assert got + rest + {v} == got + vs && {c} + rest + {v} == {c} + vs;
      GoesWider(r, r1, {c} + rest, {c} + vs);
      GoesWider(r1, r', {c, v}, {c} + vs);
      GoesOn(r, r1, r', {c} + vs);
    }
  }

  lemma TimeoutIsFree(s: Cluster, c: int)
    requires c in s.nodes && s.nodes[c].role != Leader
    ensures Enabled(s, Timeout(c)) && Careful(s, Timeout(c)) && Undisturbed(s, Timeout(c))
    ensures Step(s, Timeout(c)).nodes == s.nodes[c := StartElection(s.nodes[c])]
  {
  }

  /** Of these nodes c is not behind any, in term or in log. */
  ghost predicate Foremost(s: Cluster, c: int, m: set<int>) {
    && c in m && m <= s.nodes.Keys
    && forall v :: v in m ==> NotBefore(s.nodes[c], s.nodes[v])
  }

  predicate NotBefore(n: Node, f: Node) {
    f.currentTerm <= n.currentTerm && UpToDate(LastIndex(n.log), LastTerm(n.log), f.log)
  }

  lemma StandsAlone(n: Node)
    requires n.role == Candidate && n.electionTerm == n.currentTerm >= 1
    requires n.votesReceived == {n.id} && |n.peers| >= 1
    ensures Standing(n, n, {n.id})
  {
    assert n == n.(votesReceived := {n.id});
  }

  /** The foremost node that does not lead becomes a candidate whom the others will vote for. */
  lemma StandUp(r: Run, c: int, m: set<int>) returns (r': Run, n: Node)
    requires Real(r) && Foremost(Now(r), c, m) && Now(r).nodes[c].role != Leader
    ensures Goes(r, r', {c}) && c in Now(r').nodes && n.id == c && |n.peers| + 1 == |Now(r).nodes|
    ensures Standing(n, Now(r').nodes[c], {c}) && forall v :: v in m - {c} ==> WillVote(Now(r'), n, v)
  {
    hide RaftInv, Real, Now, Goes, StartElection, UpToDate, Standing;
    WholeCluster(r, c);
    TimeoutIsFree(Now(r), c);
    H.Stands(Now(r).nodes[c]);
    r' := Go(r, Timeout(c));
    GoesSame(r, r', {c});
    n := Now(r').nodes[c];
    StandsAlone(n);
    forall v | v in m - {c} ensures WillVote(Now(r'), n, v) {
      assert NotBefore(Now(r).nodes[c], Now(r).nodes[v]);
    }
  }

  /** The foremost node of a majority, if it does not lead already, is elected by the others. */
  lemma Elect(r: Run, c: int, m: set<int>) returns (r': Run)
    requires Real(r) && IsQuorum(Now(r), m) && Foremost(Now(r), c, m) && Now(r).nodes[c].role != Leader
    ensures Goes(r, r', m) && c in Now(r').nodes && Now(r').nodes[c].role == Leader
    ensures forall v :: v in m ==> v in Now(r').nodes && Now(r').nodes[v].currentTerm <= Now(r').nodes[c].currentTerm
  {
    hide RaftInv, Real, Now, Goes, UpToDate, SameBut, WillVote, NotBefore;
    var r1, n := StandUp(r, c, m);
    GoesSame(r, r1, {c});
    var vs := m - {c};
    r' := AskAll(r1, c, vs, n, {c});
    GoesSame(r1, r', {c} + vs);
    assert {c} + vs == m;
    GoesWider(r, r1, {c}, m);
    GoesOn(r, r1, r', m);
  }

  lemma PeersAreAll(s: Cluster, c: int)
    requires c in s.nodes && NodeOk(s, c)
    ensures var n := s.nodes[c];
      && |n.peers| + 1 == |s.nodes|
      && forall v :: v in s.nodes && v != c ==> v in n.peers
  {
    var n := s.nodes[c];
    DistinctSize(n.peers);
    assert |s.nodes.Keys - {c}| == |s.nodes.Keys| - 1;
    forall v | v in s.nodes && v != c ensures v in n.peers {
      var others := set q | q in n.peers;
      assert v in s.nodes.Keys - {c};
      assert v in others;
    }
  }

  lemma WholeCluster(r: Run, c: int)
    requires Real(r) && c in Now(r).nodes
    ensures var s, n := Now(r), Now(r).nodes[c];
      && n.id == c && n.currentTerm >= 0 && |n.peers| + 1 == |s.nodes| >= 2
      && forall v :: v in s.nodes && v != c ==> v in n.peers
  {
    NowInv(r);
    assert NodeOk(Now(r), c);
    PeersAreAll(Now(r), c);
  }

  // --- Who can be elected ---

  ghost predicate LongestOf(s: Cluster, c: int, m: set<int>)
    requires m <= s.nodes.Keys
  {
    && c in m
    && forall v :: v in m ==> UpToDate(LastIndex(s.nodes[c].log), LastTerm(s.nodes[c].log), s.nodes[v].log)
  }

  /** The up-to-date test orders logs, so that some node of any set passes it against all. */
  lemma {:induction false} FindLongest(s: Cluster, m: set<int>) returns (c: int)
    requires m != {} && m <= s.nodes.Keys
    ensures LongestOf(s, c, m)
    decreases |m|
  {
    var v := Pick(m);
    if m == {v} {
      c := v;
    } else {
      c := FindLongest(s, m - {v});
      if !UpToDate(LastIndex(s.nodes[c].log), LastTerm(s.nodes[c].log), s.nodes[v].log) { c := v; }
    }
  }

  lemma {:induction false} HighestTerm(s: Cluster, m: set<int>) returns (t: int)
    requires m <= s.nodes.Keys
    ensures forall v :: v in m ==> s.nodes[v].currentTerm <= t
    decreases |m|
  {
    if m == {} {
      t := 0;
    } else {
      var v := Pick(m);
      t := HighestTerm(s, m - {v});
      t := H.Max(t, s.nodes[v].currentTerm);
    }
  }

  /** The same nodes with the same logs; and terms too, but for node c. */
  ghost predicate SameLogs(s: Cluster, s': Cluster, c: int) {
    && s'.nodes.Keys == s.nodes.Keys
    && (forall v :: v in s.nodes ==> s'.nodes[v].log == s.nodes[v].log)
    && (forall v :: v in s.nodes && v != c ==> s'.nodes[v].currentTerm == s.nodes[v].currentTerm)
  }

  /** A node that does not lead can time out until its term is high enough. */
  lemma {:induction false} Rise(r: Run, c: int, t: int) returns (r': Run)
    requires Real(r) && c in Now(r).nodes && Now(r).nodes[c].role != Leader
    ensures Goes(r, r', {c}) && c in Now(r').nodes && SameLogs(Now(r), Now(r'), c)
    ensures Now(r').nodes[c].role != Leader && Now(r').nodes[c].currentTerm >= t
    decreases t - Now(r).nodes[c].currentTerm
  {
    hide Real, Now, Goes, StartElection;
    if Now(r).nodes[c].currentTerm >= t {
      r' := r;
      Stays(r, {c});
    } else {
      TimeoutIsFree(Now(r), c);
      H.Stands(Now(r).nodes[c]);
      var r1 := Go(r, Timeout(c));
      GoesSame(r, r1, {c});
      r' := Rise(r1, c, t);
      GoesOn(r, r1, r', {c});
    }
  }

  lemma SendIsFree(s: Cluster, c: int, p: nat)
    requires c in s.nodes && p < |s.nodes[c].peers|
    ensures var e := SendAppend(c, p);
      && Enabled(s, e) && Careful(s, e) && Undisturbed(s, e)
      && Step(s, e) == Send(s, AppendRequest(c, s.nodes[c].peers[p], MakeAppendEntries(s.nodes[c], p)))
  {
  }

  /** A node of a higher term answers a request with that term and is otherwise unimpressed. */
  lemma OldRequest(s: Cluster, c: int, j: int, args: AppendRequestArgs)
    requires j in s.nodes && AppendRequest(c, j, args) in s.net && args.term < s.nodes[j].currentTerm
    ensures var e := DeliverAppend(AppendRequest(c, j, args));
      && Enabled(s, e) && Careful(s, e) && Undisturbed(s, e)
      && Step(s, e).nodes == s.nodes
      && AppendReply(j, c, AppendEntriesReply(s.nodes[j].currentTerm, false, -1, -1), args) in Step(s, e).net
  {
    hide HandleAppendEntries;
    H.AppendAnswered(s.nodes[j], args);
    H.AppendRefused(s.nodes[j], args);
    assert s.nodes[j := s.nodes[j]] == s.nodes;
  }

  lemma HigherReply(s: Cluster, c: int, j: int, reply: AppendEntriesReply, args: AppendRequestArgs)
    requires c in s.nodes && s.nodes[c].role == Leader && j in s.nodes[c].peers
    requires AppendReply(j, c, reply, args) in s.net && reply.term > s.nodes[c].currentTerm
    ensures var e := DeliverAppendReply(AppendReply(j, c, reply, args));
      && Enabled(s, e) && Careful(s, e) && Undisturbed(s, e)
      && SameLogs(s, Step(s, e), c) && Step(s, e).nodes[c].role == Follower
  {
    hide HandleAppendEntriesResponse, RecordCommit;
    H.LeaderYields(s.nodes[c], j, reply);
  }

  /** A leader whose term is over learns so from any node that has gone further. */
  lemma GiveUp(r: Run, c: int, j: int) returns (r': Run)
    requires Real(r) && c in Now(r).nodes && Now(r).nodes[c].role == Leader
    requires j in Now(r).nodes && Now(r).nodes[j].currentTerm > Now(r).nodes[c].currentTerm
    ensures Goes(r, r', {c, j}) && c in Now(r').nodes && SameLogs(Now(r), Now(r'), c)
    ensures Now(r').nodes[c].role != Leader
  {
    hide Real, Now, Goes, Step, Enabled, Careful, Undisturbed, MakeAppendEntries;
    WholeCluster(r, c);
    var n, t := Now(r).nodes[c], Now(r).nodes[j].currentTerm;
    var p: nat :| p < |n.peers| && n.peers[p] == j;
    var args := MakeAppendEntries(n, p);
    H.RequestMade(n, p);
    SendIsFree(Now(r), c, p);
    var r1 := Go(r, SendAppend(c, p));
    GoesSame(r, r1, {c});
    OldRequest(Now(r1), c, j, args);
    var r2 := Go(r1, DeliverAppend(AppendRequest(c, j, args)));
    GoesSame(r1, r2, {j});
    var reply := AppendEntriesReply(t, false, -1, -1);
    HigherReply(Now(r2), c, j, reply, args);
    r' := Go(r2, DeliverAppendReply(AppendReply(j, c, reply, args)));
    GoesWider(r, r1, {c}, {c, j});
    GoesWider(r1, r2, {j}, {c, j});
    GoesWider(r2, r', {c}, {c, j});
    GoesOn(r, r1, r2, {c, j});
    GoesOn(r, r2, r', {c, j});
  }

  ghost predicate LeadsAll(s: Cluster, c: int, m: set<int>) {
    && c in m && m <= s.nodes.Keys && s.nodes[c].role == Leader
    && forall v :: v in m ==> s.nodes[v].currentTerm <= s.nodes[c].currentTerm
  }

  /** From any state of a careful run every majority can have a leader of its own. */
  lemma MajorityLeads(r: Run, m: set<int>) returns (r': Run, c: int)
    requires Real(r) && IsQuorum(Now(r), m)
    ensures Goes(r, r', m) && LeadsAll(Now(r'), c, m)
  {
    hide Real, Now, Goes, UpToDate, SameBut;
    c := FindLongest(Now(r), m);
    if LeadsAll(Now(r), c, m) {
      r' := r;
      Stays(r, m);
    } else {
      var r1 := StepAside(r, c, m);
      GoesSame(r, r1, m);
      var t := HighestTerm(Now(r1), m);
      var r2 := Rise(r1, c, t);
      GoesSame(r1, r2, {c});
      SameSize(Now(r), Now(r2));
      assert Foremost(Now(r2), c, m);
      r' := Elect(r2, c, m);
      GoesSame(r2, r', m);
      GoesWider(r1, r2, {c}, m);
      GoesOn(r, r1, r2, m);
      GoesOn(r, r2, r', m);
    }
  }

  lemma StepAside(r: Run, c: int, m: set<int>) returns (r': Run)
    requires Real(r) && c in m && m <= Now(r).nodes.Keys && !LeadsAll(Now(r), c, m)
    ensures Goes(r, r', m) && c in Now(r').nodes && SameLogs(Now(r), Now(r'), c) && Now(r').nodes[c].role != Leader
  {
    hide Real, Now, Goes;
    if Now(r).nodes[c].role == Leader {
      var j :| j in m && Now(r).nodes[j].currentTerm > Now(r).nodes[c].currentTerm;
      r' := GiveUp(r, c, j);
      GoesWider(r, r', {c, j}, m);
    } else {
      r' := r;
      Stays(r, m);
    }
  }

  // --- A majority serves ---

  /** A leader's log holds everything that nodes of no later term have applied. */
  lemma NothingMissed(s: Cluster, c: int, j: int)
    requires RaftInv(s) && c in s.nodes && j in s.nodes && s.nodes[c].role == Leader
    requires s.nodes[j].currentTerm <= s.nodes[c].currentTerm
    ensures |s.nodes[j].applied| <= |s.nodes[c].log| - 1
  {
    hide ElectionInv, BallotInv, AckInv;
    var h, n, f := s.history, s.nodes[c], s.nodes[j];
    assert AppliedOk(h, f) && NodeLogOk(h, n);
    if f.commitIndex >= 1 {
      var d :| Covers(h, d, f.log, f.currentTerm, f.commitIndex + 1);
      assert CommitOk(s, d);
      LeadersHold(s, d, n.currentTerm);
    }
  }

  /** The peer numbers of the other nodes of m. */
  ghost function PeersIn(n: Node, m: set<int>): set<nat> {
    set p: nat | p < |n.peers| && n.peers[p] in m
  }

  lemma PeersInAre(s: Cluster, c: int, m: set<int>)
    requires c in s.nodes && NodeOk(s, c) && c in m && m <= s.nodes.Keys
    ensures Ids(s.nodes[c], PeersIn(s.nodes[c], m)) == m - {c}
  {
    var n := s.nodes[c];
    PeersAreAll(s, c);
    PeersAreOthers(s.nodes.Keys, c, n.peers);
    forall v | v in m - {c} ensures v in Ids(n, PeersIn(n, m)) {
      var p: nat :| p < |n.peers| && n.peers[p] == v;
      assert p in PeersIn(n, m);
    }
  }

  lemma {:induction false} CountIds(n: Node, ps: set<nat>)
    requires Distinct(n.peers) && forall p :: p in ps ==> p < |n.peers|
    ensures |Ids(n, ps)| == |ps|
    decreases |ps|
  {
    if ps == {} {
      assert Ids(n, ps) == {};
    } else {
      var p :| p in ps;
      CountIds(n, ps - {p});
      NotAmong(n, ps - {p}, p);
      assert Ids(n, ps) == Ids(n, ps - {p}) + {n.peers[p]};
    }
  }

  /** A leader that leads all of a majority can serve with them. */
  lemma ReadyToServe(s: Cluster, c: int, m: set<int>)
    requires LeadsAll(s, c, m) && IsQuorum(s, m) && |s.nodes| >= 2 && NodeOk(s, c)
    ensures var n, ps := s.nodes[c], PeersIn(s.nodes[c], m);
      AllReady(s, c, ps) && ps != {} && H.MostOf(n, 1 + |ps|) && {c} + Ids(n, ps) == m
  {
    var n, ps := s.nodes[c], PeersIn(s.nodes[c], m);
    PeersAreAll(s, c);
    PeersAreOthers(s.nodes.Keys, c, n.peers);
    PeersInAre(s, c, m);
    CountIds(n, ps);
    assert |m - {c}| == |m| - 1;
  }

  /** A majority is enough, always: from any state of any careful run, the nodes of any
      majority, by themselves and without a crash, come to apply any further command, each
      after all it has applied before and all with the same number. */
  lemma MajorityServes(r: Run, m: set<int>, command: string) returns (r': Run, k: nat)
    requires Real(r) && IsQuorum(Now(r), m)
    ensures Goes(r, r', m)
    ensures forall j :: j in m ==>
              && j in Now(r).nodes && j in Now(r').nodes
              && |Now(r).nodes[j].applied| <= k && HasApplied(Now(r').nodes[j], k, command)
  {
    hide Real, Now, Goes, RaftInv, HasApplied, LeadsAll, AllReady, PeersIn, Ids, NodeOk, SameBut;
    var r1, c := MajorityLeads(r, m);
    GoesSame(r, r1, m);
    LeaderKnown(r1, c, m);
    SameSize(Now(r), Now(r1));
    ReadyToServe(Now(r1), c, m);
    var n := Now(r1).nodes[c];
    r' := LeaderServes(r1, c, PeersIn(n, m), command);
    GoesOn(r, r1, r', m);
    k := |n.log| - 1;
    forall j | j in m ensures j in Now(r).nodes && |Now(r).nodes[j].applied| <= k {
      assert LeadsAll(Now(r1), c, m);
      NothingNew(Now(r), Now(r1), c, j, m);
    }
  }

  lemma LeaderKnown(r: Run, c: int, m: set<int>)
    requires Real(r) && LeadsAll(Now(r), c, m)
    ensures c in Now(r).nodes && Now(r).nodes[c].role == Leader && NodeOk(Now(r), c) && |Now(r).nodes| >= 2
    ensures RaftInv(Now(r))
  {
    NowInv(r);
  }

  lemma NothingNew(s: Cluster, s': Cluster, c: int, j: int, m: set<int>)
    requires SameBut(s, s', m) && RaftInv(s') && LeadsAll(s', c, m) && j in m
    ensures j in s.nodes && |s.nodes[j].applied| <= |s'.nodes[c].log| - 1
  {
    NothingMissed(s', c, j);
  }
}
