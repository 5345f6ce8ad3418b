/**
 How a run can go on by careful events when nothing crashes: what one event changes, and how
 a leader with reachable peers gets a command replicated, committed and applied by all of them.
 */
module Progress {
  import opened RaftLog
  import opened RaftSpec
  import opened Cluster
  import opened ElectionSafety
  import opened LogMatching
  import opened LeaderCompleteness
  import opened Commitment
  import opened CarefulRuns
  import opened Backoff
  import H = Handlers

  datatype Run = Run(states: seq<Cluster>, events: seq<Event>)

  ghost predicate Real(r: Run) {
    IsCarefulRun(r.states, r.events)
  }

  ghost function Now(r: Run): Cluster
    requires Real(r)
  {
    r.states[|r.events|]
  }

  /** Nothing crashes, and no leader's election timer fires (it has none). */
  predicate Undisturbed(s: Cluster, e: Event)
    requires Enabled(s, e)
  {
    match e
    case Timeout(i) => s.nodes[i].role != Leader
    case Crash(_) => false
    case CrashInVote(_) => false
    case CrashInAppend(_) => false
    case _ => true
  }

  ghost predicate UndisturbedAt(r: Run, k: nat)
    requires k < |r.events| < |r.states|
  {
    Enabled(r.states[k], r.events[k]) && Undisturbed(r.states[k], r.events[k])
  }

  /** Run r goes on, as r', by careful and undisturbed events that change no node outside m. */
  ghost predicate Goes(r: Run, r': Run, m: set<int>) {
    && Real(r) && Real(r') && r.states <= r'.states && r.events <= r'.events
    && (forall k :: |r.events| <= k < |r'.events| ==> UndisturbedAt(r', k))
    && SameBut(Now(r), Now(r'), m)
  }

  /** Nodes outside m are as they were, and no node has taken back what it applied. */
  ghost predicate SameBut(s: Cluster, s': Cluster, m: set<int>) {
    && s'.nodes.Keys == s.nodes.Keys
    && (forall j :: j in s.nodes && j !in m ==> s'.nodes[j] == s.nodes[j])
    && (forall j :: j in s.nodes ==> s.nodes[j].applied <= s'.nodes[j].applied)
  }

  lemma GoesOn(a: Run, b: Run, c: Run, m: set<int>)
    requires Goes(a, b, m) && Goes(b, c, m)
    ensures Goes(a, c, m)
  {
    forall k | |a.events| <= k < |c.events| ensures UndisturbedAt(c, k) {
      if k < |b.events| { assert UndisturbedAt(b, k); }
    }
  }

  lemma GoesWider(a: Run, b: Run, m: set<int>, m': set<int>)
    requires Goes(a, b, m) && m <= m'
    ensures Goes(a, b, m')
  {
  }

  lemma Stays(r: Run, m: set<int>)
    requires Real(r)
    ensures Goes(r, r, m)
  {
  }

  lemma NowInv(r: Run)
    requires Real(r)
    ensures RaftInv(Now(r)) && SafeInv(Now(r)) && ElectionInv(Now(r)) && LogInv(Now(r))
  {
    RunRaftInv(r.states, r.events, |r.events|);
  }

  /** The node at which an event happens. */
  function Actor(e: Event): int {
    match e
    case Timeout(i) => i
    case SendVoteRequest(i, _, _, _, _) => i
    case DeliverVoteRequest(p) => p.dst
    case DeliverVoteReply(p) => p.dst
    case ClientAppend(i, _) => i
    case SendAppend(i, _) => i
    case DeliverAppend(p) => p.dst
    case DeliverAppendReply(p) => p.dst
    case Apply(i) => i
    case Save(i) => i
    case Crash(i) => i
    case CrashInVote(p) => p.dst
    case CrashInAppend(p) => p.dst
  }

  lemma OneChanged(s: Cluster, s': Cluster, i: int)
    requires i in s.nodes && i in s'.nodes && (s'.nodes == s.nodes[i := s'.nodes[i]] || s'.nodes == s.nodes)
    ensures ChangesNode(s, s', i)
  {
  }

  lemma OnlyTheActor(s: Cluster, e: Event)
    requires Enabled(s, e)
    ensures ChangesNode(s, Step(s, e), Actor(e))
  {
    hide HandleRequestVote, HandleVoteResponse, HandleAppendEntries, HandleAppendEntriesResponse, StartElection,
         AppendCommand, ApplyCommitted, Restart, Persist, StepDown, MeetLeader, MakeAppendEntries, ChangesNode,
         RecordVote, RecordElection, RecordAppend, RecordAck, RecordCommit, LastIndex, LastTerm;
    var i, s' := Actor(e), Step(s, e);
    OneChanged(s, s', i);
  }

  lemma StepSameBut(s: Cluster, e: Event)
    requires RaftInv(s) && Enabled(s, e) && Undisturbed(s, e)
    ensures SameBut(s, Step(s, e), {Actor(e)})
  {
    hide RaftInv, Step;
    OnlyTheActor(s, e);
    forall j | j in s.nodes ensures s.nodes[j].applied <= Step(s, e).nodes[j].applied {
      StepKeepsProgress(s, e, j);
    }
  }

  lemma Go(r: Run, e: Event) returns (r': Run)
    requires Real(r) && Enabled(Now(r), e) && Careful(Now(r), e) && Undisturbed(Now(r), e)
    ensures Goes(r, r', {Actor(e)}) && Now(r') == Step(Now(r), e)
  {
    hide Step, Enabled, Careful, Undisturbed, Init, RaftInv, SameBut;
    NowInv(r);
    StepSameBut(Now(r), e);
    r' := Run(r.states + [Step(Now(r), e)], r.events + [e]);
    forall k | 0 <= k < |r'.events| ensures StepAt(r'.states, r'.events, k) && CarefulAt(r'.states, r'.events, k) {
      if k < |r.events| { assert StepAt(r.states, r.events, k) && CarefulAt(r.states, r.events, k); }
    }
  }

  // --- One remote call of a leader ---

  lemma Call(r: Run, c: int, p: nat) returns (r': Run)
    requires Real(r) && Ready(Now(r), c, p)
    ensures Goes(r, r', {c, Now(r).nodes[c].peers[p]}) && Now(r') == Exchange(Now(r), c, p)
  {
    hide Step, Enabled, Careful, RaftInv, SameBut, Real, Now, HandleAppendEntries, MakeAppendEntries, Exchange;
    var s := Now(r);
    var j, args := s.nodes[c].peers[p], MakeAppendEntries(s.nodes[c], p);
    var reply := HandleAppendEntries(s.nodes[j], args).1;
    NowInv(r);
    ExchangeIsCareful(s, c, p);
    var r1 := Go(r, SendAppend(c, p));
    var r2 := Go(r1, DeliverAppend(AppendRequest(c, j, args)));
    r' := Go(r2, DeliverAppendReply(AppendReply(j, c, reply, args)));
    GoesWider(r, r1, {c}, {c, j});
    GoesWider(r1, r2, {j}, {c, j});
    GoesWider(r2, r', {c}, {c, j});
    GoesOn(r, r1, r2, {c, j});
    GoesOn(r, r2, r', {c, j});
  }

  // --- A leader brings its peers up to date ---

  /** The node still leads, with its log, and has lost no commit. */
  ghost predicate StillLeads(n: Node, n': Node) {
    && n.role == Leader && n'.role == Leader && n'.id == n.id && n'.peers == n.peers
    && n'.currentTerm == n.currentTerm && n'.log == n.log && n'.commitIndex >= n.commitIndex
  }

  /** What n knows of its peers other than number p is what it knew. */
  ghost predicate SameButPeer(n: Node, n': Node, p: nat) {
    && n'.peers == n.peers
    && forall q :: 0 <= q < |n.peers| && q != p ==>
         n'.matchIndex[q] == n.matchIndex[q] && n'.nextIndex[q] == n.nextIndex[q]
  }

  /** No position beyond the commit index may be committed by counting. */
  ghost predicate CaughtUp(n: Node) {
    forall k :: k > n.commitIndex ==> !H.MayCommit(n, k)
  }

  /** Peer number p has the leader's whole log, and the leader knows. */
  ghost predicate UpToDatePeer(s: Cluster, c: int, p: nat) {
    && Ready(s, c, p)
    && var n := s.nodes[c];
    && n.matchIndex[p] == |n.log| - 1 && n.nextIndex[p] == |n.log|
    && Agree(n.log, s.nodes[n.peers[p]].log, |n.log|)
  }

  /** The leader after a reply to its request. */
  lemma LeaderLearns(n: Node, j: int, p: nat, reply: AppendEntriesReply)
    requires n.role == Leader && p < |n.peers| && n.peers[p] == j && PeerIndex(n.peers, j) == p
    requires reply.term == n.currentTerm
    ensures var n' := HandleAppendEntriesResponse(n, j, reply).0;
      && StillLeads(n, n') && SameButPeer(n, n', p)
      && (reply.success ==> n'.matchIndex[p] == |n.log| - 1 && n'.nextIndex[p] == |n.log| && CaughtUp(n'))
  {
    hide HandleAppendEntriesResponse, H.MayCommit;
    if reply.success {
      H.SuccessNoted(n, j, reply);
    } else {
      H.RefusalNoted(n, j, reply);
    }
  }

  lemma ExchangeResult(s: Cluster, c: int, p: nat)
    requires ElectionInv(s) && LogInv(s) && Ready(s, c, p)
    ensures var s' := Exchange(s, c, p);
      && Ready(s', c, p) && StillLeads(s.nodes[c], s'.nodes[c]) && SameButPeer(s.nodes[c], s'.nodes[c], p)
      && ((UpToDatePeer(s', c, p) && CaughtUp(s'.nodes[c]))
          || 1 <= s'.nodes[c].nextIndex[p] < s.nodes[c].nextIndex[p])
  {
    hide HandleAppendEntriesResponse, HandleAppendEntries, MakeAppendEntries, Exchange, CaughtUp, ElectionInv, LogInv;
    var n, j := s.nodes[c], s.nodes[c].peers[p];
    var reply := HandleAppendEntries(s.nodes[j], MakeAppendEntries(n, p)).1;
    ExchangeNodes(s, c, p);
    ExchangeProgress(s, c, p);
    LeaderLearns(n, j, p, reply);
  }

  lemma {:induction false} Replicate(r: Run, c: int, p: nat, bound: nat) returns (r': Run)
    requires Real(r) && Ready(Now(r), c, p) && Now(r).nodes[c].nextIndex[p] <= bound
    ensures Goes(r, r', {c, Now(r).nodes[c].peers[p]}) && c in Now(r').nodes
    ensures var n, n' := Now(r).nodes[c], Now(r').nodes[c]; StillLeads(n, n') && SameButPeer(n, n', p) && CaughtUp(n')
    ensures UpToDatePeer(Now(r'), c, p)
    decreases bound
  {
    hide Exchange, CaughtUp, RaftInv, Real, Now, ElectionInv, LogInv, SameBut;
    var m := {c, Now(r).nodes[c].peers[p]};
    NowInv(r);
    ExchangeResult(Now(r), c, p);
    r' := Call(r, c, p);
    if !(UpToDatePeer(Now(r'), c, p) && CaughtUp(Now(r').nodes[c])) {
      var r1 := r';
      r' := Replicate(r1, c, p, bound - 1);
      GoesOn(r, r1, r', m);
    }
  }

  /** The ids of these peer numbers. */
  ghost function Ids(n: Node, ps: set<nat>): set<int> {
    set p | p in ps && p < |n.peers| :: n.peers[p]
  }

  ghost predicate AllReady(s: Cluster, c: int, ps: set<nat>) {
    forall p :: p in ps ==> Ready(s, c, p)
  }

  ghost predicate AllUpToDate(s: Cluster, c: int, ps: set<nat>) {
    forall p :: p in ps ==> UpToDatePeer(s, c, p)
  }

  lemma NotAmong(n: Node, ps: set<nat>, p: nat)
    requires Distinct(n.peers) && p < |n.peers| && p !in ps
    ensures n.peers[p] !in Ids(n, ps)
  {
    forall q | q in ps && q < |n.peers| ensures n.peers[q] != n.peers[p] {
      assert q != p;
    }
  }

  /** While the leader serves other peers, a peer that is ready stays so. */
  lemma ReadyStays(s: Cluster, s': Cluster, c: int, p: nat, m: set<int>)
    requires Ready(s, c, p) && SameBut(s, s', m) && s.nodes[c].peers[p] !in m
    requires c in s'.nodes && StillLeads(s.nodes[c], s'.nodes[c])
    ensures Ready(s', c, p)
  {
  }

  /** While the leader serves peer number p, a peer that is up to date stays so. */
  lemma UpToDateStays(s: Cluster, s': Cluster, c: int, p: nat, q: nat)
    requires UpToDatePeer(s, c, q) && q != p && p < |s.nodes[c].peers| && Distinct(s.nodes[c].peers)
    requires SameBut(s, s', {c, s.nodes[c].peers[p]}) && c in s'.nodes
    requires StillLeads(s.nodes[c], s'.nodes[c]) && SameButPeer(s.nodes[c], s'.nodes[c], p)
    ensures UpToDatePeer(s', c, q)
  {
    assert s.nodes[c].peers[q] != s.nodes[c].peers[p];
  }

  lemma PeersDiffer(r: Run, c: int)
    requires Real(r) && c in Now(r).nodes
    ensures Distinct(Now(r).nodes[c].peers)
  {
    NowInv(r);
    assert NodeOk(Now(r), c);
  }

  lemma {:induction false} ReplicateAll(r: Run, c: int, ps: set<nat>) returns (r': Run)
    requires Real(r) && c in Now(r).nodes && Now(r).nodes[c].role == Leader && AllReady(Now(r), c, ps)
    ensures Goes(r, r', {c} + Ids(Now(r).nodes[c], ps)) && c in Now(r').nodes
    ensures StillLeads(Now(r).nodes[c], Now(r').nodes[c]) && AllUpToDate(Now(r'), c, ps)
    ensures ps != {} ==> CaughtUp(Now(r').nodes[c])
    decreases |ps|
  {
    hide RaftInv, Real, Now, SameBut, SameButPeer, Ready, CaughtUp, Distinct, UpToDatePeer;
    var n := Now(r).nodes[c];
    if ps == {} {
      r' := r;
      Stays(r, {c} + Ids(n, ps));
    } else {
      var p :| p in ps;
      var rest := ps - {p};
      var r1 := ReplicateAll(r, c, rest);
      PeersDiffer(r, c);
      PeersDiffer(r1, c);
      ReadyPeer(Now(r), c, p);
      NotAmong(n, rest, p);
      ReadyStays(Now(r), Now(r1), c, p, {c} + Ids(n, rest));
      r' := Replicate(r1, c, p, Now(r1).nodes[c].nextIndex[p]);
      forall q | q in rest ensures UpToDatePeer(Now(r'), c, q) {
        UpToDateStays(Now(r1), Now(r'), c, p, q);
      }
      assert {c} + Ids(n, ps) == {c} + Ids(n, rest) + {c, n.peers[p]};
      GoesWider(r, r1, {c} + Ids(n, rest), {c} + Ids(n, ps));
      GoesWider(r1, r', {c, n.peers[p]}, {c} + Ids(n, ps));
      GoesOn(r, r1, r', {c} + Ids(n, ps));
    }
  }

  lemma ReadyPeer(s: Cluster, c: int, p: nat)
    requires Ready(s, c, p)
    ensures c in s.nodes && p < |s.nodes[c].peers| && s.nodes[c].peers[p] in s.nodes && s.nodes[c].peers[p] != c
  {
  }

  /** Counting: a last entry of the leader's own term that most of the cluster is known to
      have is committed. */
  lemma LastIsCommitted(s: Cluster, c: int, ps: set<nat>)
    requires AllUpToDate(s, c, ps) && c in s.nodes && CaughtUp(s.nodes[c])
    requires var n := s.nodes[c]; n.log[|n.log| - 1].term == n.currentTerm && H.MostOf(n, 1 + |ps|)
    ensures s.nodes[c].commitIndex >= |s.nodes[c].log| - 1
  {
    var n := s.nodes[c];
    var last := |n.log| - 1;
    forall p | p in ps ensures p in H.KnownToHold(n, last) { assert UpToDatePeer(s, c, p); }
    assert ps <= H.KnownToHold(n, last);
    SubsetSize(ps, H.KnownToHold(n, last));
    assert H.MayCommit(n, last);
  }

  // --- The peers hear of the commit ---

  /** A request that finds the peer up to date tells it what the leader has committed. */
  lemma Told(s: Cluster, c: int, p: nat)
    requires RaftInv(s) && UpToDatePeer(s, c, p)
    ensures var s', j := Exchange(s, c, p), s.nodes[c].peers[p];
      && UpToDatePeer(s', c, p) && StillLeads(s.nodes[c], s'.nodes[c]) && SameButPeer(s.nodes[c], s'.nodes[c], p)
      && s'.nodes[j].commitIndex >= s.nodes[c].commitIndex
  {
    hide HandleAppendEntriesResponse, HandleAppendEntries, MakeAppendEntries, Exchange, ElectionInv, LogInv, CaughtUp;
    var n, j := s.nodes[c], s.nodes[c].peers[p];
    var f, args := s.nodes[j], MakeAppendEntries(n, p);
    assert AppliedOk(s.history, n);
    H.RequestMade(n, p);
    H.AppendAnswered(f, args);
    H.AppendCommits(f, args);
    H.AppendStores(f, args);
    ExchangeNodes(s, c, p);
    ExchangeProgress(s, c, p);
    LeaderLearns(n, j, p, HandleAppendEntries(f, args).1);
  }

  /** The node has applied this command, as its number k. */
  ghost predicate HasApplied(n: Node, k: nat, command: string) {
    k < |n.applied| && n.applied[k] == command
  }

  /** A node that has committed and applied up to a position of a log it agrees with has
      applied that position's command. */
  lemma AppliedUpTo(h: History, f: Node, log: seq<LogEntry>, k: nat)
    requires AppliedOk(h, f) && Agree(log, f.log, |log|) && 1 <= k < |log| && f.lastApplied >= k
    ensures HasApplied(f, k - 1, log[k].command)
  {
  }

  /** One more request to a peer that is up to date, after which that peer applies. */
  lemma Tell(r: Run, c: int, p: nat) returns (r': Run)
    requires Real(r) && UpToDatePeer(Now(r), c, p)
    ensures Goes(r, r', {c, Now(r).nodes[c].peers[p]}) && c in Now(r').nodes
    ensures StillLeads(Now(r).nodes[c], Now(r').nodes[c]) && SameButPeer(Now(r).nodes[c], Now(r').nodes[c], p)
    ensures UpToDatePeer(Now(r'), c, p)
    ensures Now(r').nodes[Now(r).nodes[c].peers[p]].lastApplied >= Now(r).nodes[c].commitIndex
  {
    hide RaftInv, Real, Now, Exchange, SameBut, Enabled, Careful, ApplyCommitted;
    var n, j := Now(r).nodes[c], Now(r).nodes[c].peers[p];
    NowInv(r);
    Told(Now(r), c, p);
    var r1 := Call(r, c, p);
    ApplyIsFree(Now(r1), j);
    r' := Go(r1, Apply(j));
    H.Applies(Now(r1).nodes[j]);
    GoesWider(r1, r', {j}, {c, j});
    GoesOn(r, r1, r', {c, j});
  }

  lemma ApplyIsFree(s: Cluster, j: int)
    requires j in s.nodes
    ensures Enabled(s, Apply(j)) && Careful(s, Apply(j)) && Undisturbed(s, Apply(j))
    ensures Step(s, Apply(j)) == Become(s, j, ApplyCommitted(s.nodes[j]))
  {
  }

  ghost predicate HeardAll(s: Cluster, c: int, ps: set<nat>, k: int) {
    forall p :: p in ps ==> Heard(s, c, p, k)
  }

  /** Peer number p holds the leader's log and has applied up to position k. */
  ghost predicate Heard(s: Cluster, c: int, p: nat, k: int) {
    UpToDatePeer(s, c, p) && s.nodes[s.nodes[c].peers[p]].lastApplied >= k
  }

  lemma HeardStays(s: Cluster, s': Cluster, c: int, p: nat, q: nat, k: int)
    requires Heard(s, c, q, k) && q != p && p < |s.nodes[c].peers| && Distinct(s.nodes[c].peers)
    requires SameBut(s, s', {c, s.nodes[c].peers[p]}) && c in s'.nodes
    requires StillLeads(s.nodes[c], s'.nodes[c]) && SameButPeer(s.nodes[c], s'.nodes[c], p)
    ensures Heard(s', c, q, k)
  {
    UpToDateStays(s, s', c, p, q);
    assert s.nodes[c].peers[q] != s.nodes[c].peers[p];
  }

  lemma UpToDateThrough(s: Cluster, s': Cluster, c: int, p: nat, rest: set<nat>)
    requires UpToDatePeer(s, c, p) && p !in rest && Distinct(s.nodes[c].peers)
    requires SameBut(s, s', {c} + Ids(s.nodes[c], rest)) && c in s'.nodes
    requires StillLeads(s.nodes[c], s'.nodes[c])
    requires s'.nodes[c].matchIndex[p] == s.nodes[c].matchIndex[p]
    requires s'.nodes[c].nextIndex[p] == s.nodes[c].nextIndex[p]
    ensures UpToDatePeer(s', c, p)
  {
    NotAmong(s.nodes[c], rest, p);
  }

  ghost predicate SameButPeers(n: Node, n': Node, ps: set<nat>) {
    && n'.peers == n.peers
    && forall q: nat :: q < |n.peers| && q !in ps ==>
         n'.matchIndex[q] == n.matchIndex[q] && n'.nextIndex[q] == n.nextIndex[q]
  }

  lemma {:induction false} TellAll(r: Run, c: int, ps: set<nat>) returns (r': Run)
    requires Real(r) && c in Now(r).nodes && Now(r).nodes[c].role == Leader && AllUpToDate(Now(r), c, ps)
    ensures Goes(r, r', {c} + Ids(Now(r).nodes[c], ps)) && c in Now(r').nodes
    ensures StillLeads(Now(r).nodes[c], Now(r').nodes[c]) && SameButPeers(Now(r).nodes[c], Now(r').nodes[c], ps)
    ensures HeardAll(Now(r'), c, ps, Now(r).nodes[c].commitIndex)
    decreases |ps|
  {
    hide RaftInv, Real, Now, SameBut, SameButPeer, Ready, Distinct, UpToDatePeer, Heard, Goes;
    var n := Now(r).nodes[c];
    if ps == {} {
      r' := r;
      Stays(r, {c} + Ids(n, ps));
    } else {
      var p :| p in ps;
      var rest, k := ps - {p}, n.commitIndex;
      var r1 := TellAll(r, c, rest);
      GoesSame(r, r1, {c} + Ids(n, rest));
      PeersDiffer(r, c);
      PeersDiffer(r1, c);
      assert UpToDatePeer(Now(r), c, p);
      PeerOk(Now(r), c, p);
      UpToDateThrough(Now(r), Now(r1), c, p, rest);
      r' := Tell(r1, c, p);
      GoesSame(r1, r', {c, n.peers[p]});
      forall q | q in rest ensures Heard(Now(r'), c, q, k) { HeardStays(Now(r1), Now(r'), c, p, q, k); }
      HeardNow(Now(r1), Now(r'), c, p, k);
      StillThroughout(n, Now(r1).nodes[c], Now(r').nodes[c], ps, p);
      assert {c} + Ids(n, ps) == {c} + Ids(n, rest) + {c, n.peers[p]};
      GoesWider(r, r1, {c} + Ids(n, rest), {c} + Ids(n, ps));
      GoesWider(r1, r', {c, n.peers[p]}, {c} + Ids(n, ps));
      GoesOn(r, r1, r', {c} + Ids(n, ps));
    }
  }

  lemma HeardNow(s: Cluster, s': Cluster, c: int, p: nat, k: int)
    requires UpToDatePeer(s, c, p) && UpToDatePeer(s', c, p) && StillLeads(s.nodes[c], s'.nodes[c])
    requires s'.nodes[s.nodes[c].peers[p]].lastApplied >= s.nodes[c].commitIndex >= k
    ensures Heard(s', c, p, k)
  {
  }

  lemma StillThroughout(n: Node, m: Node, n': Node, ps: set<nat>, p: nat)
    requires p in ps && p < |n.peers|
    requires StillLeads(n, m) && SameButPeers(n, m, ps - {p}) && StillLeads(m, n') && SameButPeer(m, n', p)
    ensures StillLeads(n, n') && SameButPeers(n, n', ps)
  {
  }

  lemma PeerOk(s: Cluster, c: int, p: nat)
    requires UpToDatePeer(s, c, p)
    ensures c in s.nodes && p < |s.nodes[c].peers| && s.nodes[c].peers[p] in s.nodes && s.nodes[c].peers[p] != c
  {
  }

  lemma GoesSame(r: Run, r': Run, m: set<int>)
    requires Goes(r, r', m)
    ensures Real(r) && Real(r') && SameBut(Now(r), Now(r'), m) && Now(r').nodes.Keys == Now(r).nodes.Keys
  {
  }

  // --- A leader serves a command ---

  lemma CommandIsFree(s: Cluster, c: int, command: string)
    requires c in s.nodes
    ensures var e := ClientAppend(c, command); Enabled(s, e) && Careful(s, e) && Undisturbed(s, e)
    ensures Step(s, ClientAppend(c, command)).nodes == s.nodes[c := AppendCommand(s.nodes[c], command).0]
  {
    hide AppendCommand, RecordAppend;
  }

  lemma ReadyAfterCommand(s: Cluster, s': Cluster, c: int, command: string, ps: set<nat>)
    requires c in s.nodes && s.nodes[c].role == Leader && AllReady(s, c, ps)
    requires s'.nodes == s.nodes[c := AppendCommand(s.nodes[c], command).0]
    ensures AllReady(s', c, ps)
  {
    H.CommandAnswered(s.nodes[c], command);
    forall p | p in ps ensures Ready(s', c, p) { assert Ready(s, c, p); }
  }

  lemma UpToDateAfterApply(s: Cluster, s': Cluster, c: int, ps: set<nat>)
    requires c in s.nodes && s.nodes[c].role == Leader && AllUpToDate(s, c, ps)
    requires s' == Become(s, c, ApplyCommitted(s.nodes[c]))
    ensures AllUpToDate(s', c, ps) && StillLeads(s.nodes[c], s'.nodes[c])
  {
    H.Applies(s.nodes[c]);
    forall p | p in ps ensures UpToDatePeer(s', c, p) { assert UpToDatePeer(s, c, p); }
  }

  /** The leader takes a command, replicates it, commits it and applies it. */
  lemma CommandCommitted(r: Run, c: int, ps: set<nat>, command: string) returns (r': Run)
    requires Real(r) && c in Now(r).nodes && Now(r).nodes[c].role == Leader && AllReady(Now(r), c, ps)
    requires ps != {} && H.MostOf(Now(r).nodes[c], 1 + |ps|)
    ensures Goes(r, r', {c} + Ids(Now(r).nodes[c], ps)) && c in Now(r').nodes
    ensures var n, n' := Now(r).nodes[c], Now(r').nodes[c];
      && n'.role == Leader && n'.peers == n.peers && AllUpToDate(Now(r'), c, ps)
      && |n'.log| == |n.log| + 1 && n'.log[|n.log|].command == command
      && n'.lastApplied == n'.commitIndex >= |n.log|
  {
    hide RaftInv, Real, Now, SameBut, Ready, UpToDatePeer, AllReady, AllUpToDate, Enabled, Careful, Undisturbed,
         AppendCommand, ApplyCommitted, Goes, CaughtUp;
    var n := Now(r).nodes[c];
    var m := {c} + Ids(n, ps);
    CommandIsFree(Now(r), c, command);
    H.CommandAnswered(n, command);
    var r1 := Go(r, ClientAppend(c, command));
    GoesSame(r, r1, {c});
    ReadyAfterCommand(Now(r), Now(r1), c, command, ps);
    var r2 := ReplicateAll(r1, c, ps);
    GoesSame(r1, r2, m);
    LastIsCommitted(Now(r2), c, ps);
    ApplyIsFree(Now(r2), c);
    H.Applies(Now(r2).nodes[c]);
    NowInv(r2);
    assert AppliedOk(Now(r2).history, Now(r2).nodes[c]) by { NowApplied(r2, c); }
    r' := Go(r2, Apply(c));
    GoesSame(r2, r', {c});
    UpToDateAfterApply(Now(r2), Now(r'), c, ps);
    GoesWider(r, r1, {c}, m);
    GoesWider(r2, r', {c}, m);
    GoesOn(r, r1, r2, m);
    GoesOn(r, r2, r', m);
  }

  lemma NowApplied(r: Run, j: int)
    requires Real(r) && j in Now(r).nodes
    ensures AppliedOk(Now(r).history, Now(r).nodes[j])
  {
    NowInv(r);
  }

  /** A leader and peers that make a majority of the cluster with it serve any command. */
  lemma LeaderServes(r: Run, c: int, ps: set<nat>, command: string) returns (r': Run)
    requires Real(r) && c in Now(r).nodes && Now(r).nodes[c].role == Leader && AllReady(Now(r), c, ps)
    requires ps != {} && H.MostOf(Now(r).nodes[c], 1 + |ps|)
    ensures Goes(r, r', {c} + Ids(Now(r).nodes[c], ps))
    ensures forall j :: j in {c} + Ids(Now(r).nodes[c], ps) ==>
              j in Now(r').nodes && HasApplied(Now(r').nodes[j], |Now(r).nodes[c].log| - 1, command)
  {
    hide RaftInv, Real, Now, SameBut, Ready, UpToDatePeer, AllReady, AllUpToDate, Goes, HasApplied, AppliedOk, Agree;
    var n := Now(r).nodes[c];
    var m := {c} + Ids(n, ps);
    var r1 := CommandCommitted(r, c, ps, command);
    GoesSame(r, r1, m);
    r' := TellAll(r1, c, ps);
    GoesSame(r1, r', m);
    GoesOn(r, r1, r', m);
    var n1, k: nat := Now(r1).nodes[c], |n.log|;
    forall j | j in m ensures j in Now(r').nodes && HasApplied(Now(r').nodes[j], k - 1, command) {
      if j == c {
        NowApplied(r1, c);
        SelfAgrees(n1.log);
        AppliedUpTo(Now(r1).history, n1, n1.log, k);
        AppliedStays(Now(r1), Now(r'), m, c, k - 1, command);
      } else {
        var p: nat :| p in ps && p < |n.peers| && n.peers[p] == j;
        assert Heard(Now(r'), c, p, n1.commitIndex);
        HeardMeans(Now(r'), c, p, n1.commitIndex);
        NowApplied(r', j);
        AppliedUpTo(Now(r').history, Now(r').nodes[j], Now(r').nodes[c].log, k);
      }
    }
  }

  lemma SelfAgrees(log: seq<LogEntry>)
    ensures Agree(log, log, |log|)
  {
  }

  lemma HeardMeans(s: Cluster, c: int, p: nat, k: int)
    requires Heard(s, c, p, k)
    ensures c in s.nodes && p < |s.nodes[c].peers| && s.nodes[c].peers[p] in s.nodes
    ensures var f := s.nodes[s.nodes[c].peers[p]];
      Agree(s.nodes[c].log, f.log, |s.nodes[c].log|) && f.lastApplied >= k
  {
  }

  lemma AppliedStays(s: Cluster, s': Cluster, m: set<int>, j: int, k: nat, command: string)
    requires SameBut(s, s', m) && j in s.nodes && HasApplied(s.nodes[j], k, command)
    ensures j in s'.nodes && HasApplied(s'.nodes[j], k, command)
  {
  }
}
