# A proved model of the Raft key-value store

The repository is a replicated key-value store in C++: a Raft node
(`src/raft/raft_node.cpp`), the text formats its messages and its state file use, and a
skip list that holds the replicated contents. This project models those parts in Dafny and
proves what they are for.

## The parts

- **The node.** `RaftNodes.RaftNode` is the node as the program keeps it: fields that the
  handlers update in place, the log cut and extended in a loop, the state file as text. Each
  handler is proved to compute a step function on node values (module `RaftSpec`), and
  `Handlers` proves what each step owes its callers, field by field: when a vote must be given,
  who wins, what a request makes a follower store, commit and apply.
- **The cluster.** `Cluster` builds runs from those step functions. The network may lose,
  delay, reorder and repeat packets. One event is one critical section of a node (its mutex is
  held). Any node may time out, send, apply, save or crash at any moment, and a handler
  that saves twice may die between its saves. A restart reads back the last saved state.
  The server reads the fields of a vote request one getter at a time
  (`src/raft_node_server.cpp:145-151`), so such a request may mix values of different moments.
- **Proofs about all runs**, in order: `ElectionSafety`, `Elections`, `LogMatching`, `Logs`,
  `Backoff`. They hold on the asynchronous network with crashes that lose a leader's unsaved
  suffix.
- **Proofs about careful runs**: `LeaderCompleteness`, `CommitCounting`, `Commitment`,
  `CarefulRuns`. `Replies` and `Assumptions` show what a careful run excludes and why.
- **A majority is enough**: `Progress` and `Majorities` prove that from any state of any careful
  run the nodes of any majority can by themselves elect a leader and apply any further command.
- **Concrete runs**: `Scenarios` builds runs of three nodes step by step. `Elections` and
  `Assumptions` use them where a property is false of the program.
- **The text formats**: `Streams` (the library calls), `Codecs` (round trips), `Layouts` (what
  stands where), `TornTexts` (texts cut short).
- **The state machine**: `SkipLists` (linked nodes, rewired in place), `Commands`, `KVStores`,
  and `Replicas`, which joins the stores to the cluster.

## What a careful run is

Leader Completeness and State Machine Safety are false of the program on an unrestricted
network, and the code is modelled as it is. Two things are left to luck, and
`Cluster.Careful` says what luck means, as a condition on the next event:

1. A leader acts on a success reply only if the request was made in its present term and
   reached the present end of its log. The code records its own last index when the reply
   arrives, not when the request was made (`src/raft/raft_node.cpp:517-531`).
   `Replies.RecordedMatchIsTrue` proves that the record is true of every possible sender if and
   only if the request reached the end. One stale reply is enough to break both properties: in
   the run of `Assumptions.StaleReplyLosesACommit` a later leader lacks a committed entry, and
   in that of `Assumptions.StaleReplySplitsApplied` two nodes apply different first commands.
2. A leader crashes only when what it believes committed is on its disk. It counts its own entry
   before it is saved (`src/raft/raft_node.cpp:404` and `657`); in the run of
   `Assumptions.EarlyCrashLosesACommit` one crash with a single committed entry unsaved loses
   that entry although every reply was in time. Crashes that lose unsaved entries which are not
   committed, and all crashes of followers and candidates, are careful
   (`LeaderCompleteness.AckCrash`).

This is weaker than making each exchange of a request and its reply one step: an undisturbed
exchange is always careful (`Backoff.ExchangeIsCareful`), but so are interleaved ones whose
replies are still fresh.

## Scope of the cluster

Membership is fixed, there are at least two nodes, ids are distinct and not negative, and every
node knows all others. A node becomes leader only through `handleVoteResponse`. A vote reply
goes back to the requester tagged with the voter (`src/raft_node_server.cpp:156-167`). Terms,
indices and lengths are unbounded integers. A save succeeds and is atomic. Clocks, random
timeouts and random levels are arbitrary choices.

## Where code and comments disagree

- The comments at `src/raft/raft_node.cpp:518-527` want the match index taken from the entries
  that were sent; the code takes the present last index. The model follows the code.
- The comment at `include/storage/skiplist.h:77` allows a level of 16; the code stops at 15,
  and so does the model.
- One vote for each term is the usual rule; the code clears the vote of a candidate or leader
  that steps down within its term, and keeps a follower's old vote in a newer term it learns from
  a leader (`src/raft/raft_node.cpp:144-157`). `Elections.VoteAfterRequest` says exactly when, and
  `Elections.VotesTwiceInOneTerm` is a run that shows it.

## Model

| member | source | states |
|---|---|---|
| RaftLog.MergeMeaning | src/raft/raft_node.cpp:182-207 | merging leaves the log alone iff every received entry is already there by term, even if the log is longer; otherwise the log ends with the received entries, each position keeping the old entry while everything up to it matched and else holding the received one, numbered with its position |
| RaftLog.ConflictStart | src/raft/raft_node.cpp:170-177 | the reported index starts the unbroken stretch of the conflicting term that ends at the tried position, never below 1 for a real position |
| RaftLog.LastOfTerm | src/raft/raft_node.cpp:545-552 | the last position of the term, or -1 iff no entry has it |
| RaftSpec.ScanFindsHighest | src/raft/raft_node.cpp:648-673 | the scan stops at a committable position above the old commit index iff there is one, and then at the highest |
| RaftNodes.RaftNode.constructor | src/raft/raft_node.cpp:11-40 | a new node, whatever file it finds, starts as a fresh follower at term 0 with the sentinel log |
| RaftNodes.RaftNode.HandleRequestVote | src/raft/raft_node.cpp:92-128 | whole new state and reply are those of the cluster's vote step, whose promises are Handlers.VoteAnswered, VoteTakesTerm and VoteKeepsRole |
| RaftNodes.RaftNode.HandleAppendEntries | src/raft/raft_node.cpp:130-222 | whole new state and reply are those of the cluster's append step, in place and through its loops; its promises are Handlers.AppendAnswered, AppendRefused, AppendStores and AppendCommits |
| RaftNodes.RaftNode.MergeEntries | src/raft/raft_node.cpp:180-207 | the erase-and-append loop computes the functional merge, and reports modification iff something differed |
| RaftNodes.RaftNode.FindConflictIndex | src/raft/raft_node.cpp:168-178 | the backward loop finds the start of the conflicting term |
| RaftNodes.RaftNode.StartElection | src/raft/raft_node.cpp:226-252 | whole new state is that of the cluster's timeout step, described by Handlers.Stands |
| RaftNodes.RaftNode.HandleVoteResponse | src/raft/raft_node.cpp:254-296 | whole new state and result are those of the cluster's vote-counting step, whose promises are Handlers.VoteCounted, VoteNotCounted and CandidateYields |
| RaftNodes.RaftNode.BecomeLeaderInternal | src/raft/raft_node.cpp:303-325 | the reset loop gives every peer nextIndex one past the log and matchIndex 0 |
| RaftNodes.RaftNode.AppendLogEntry | src/raft/raft_node.cpp:390-407 | a leader appends one entry numbered with its position, anyone else changes nothing and answers -1 |
| RaftNodes.RaftNode.CreateAppendEntriesArgs | src/raft/raft_node.cpp:688-718 | the request carries the whole suffix from nextIndex, with term 0 before position 1 or past the end |
| RaftNodes.RaftNode.HandleAppendEntriesResponse | src/raft/raft_node.cpp:471-570 | whole new state and result are those of the cluster's reply step, whose promises are Handlers.SuccessNoted, RefusalNoted, LeaderYields and ReplyIgnored |
| RaftNodes.RaftNode.UpdateCommitIndex | src/raft/raft_node.cpp:629-686 | the downward scan with its counting loop moves only the commit index, to the highest committable position |
| RaftNodes.RaftNode.ApplyCommittedEntriesInternal | src/raft/raft_node.cpp:577-627 | the loop hands the commands after lastApplied up to the commit index to the callback, in order, skipping positions past the log |
| RaftNodes.RaftNode.PersistState | src/raft/raft_node.cpp:1072-1083 | the file written restores to the node's term, vote and log |
| RaftNodes.RaftNode.RestoreState | src/raft/raft_node.cpp:1009-1040 | a file that parses sets term, vote and a non-empty log; one that does not changes nothing |
| RaftNodes.RaftNode.Reboot | src/raft/raft_node.cpp:11-40 | a new node that restores the old one's file is the cluster's restart step |
| Handlers.Stands | src/raft/raft_node.cpp:226-252 | a timeout makes a candidate of the next term with its own vote counted and saved, nothing else changed |
| Handlers.VoteAnswered | src/raft/raft_node.cpp:92-128 | a vote is given iff the request is not of an older term, the vote of its term is free or the candidate's already, and its last entry is of a later term or of the same term and no earlier place; answer and node take the higher term; a given vote is saved |
| Handlers.VoteTakesTerm | src/raft/raft_node.cpp:102-112 | a higher term is taken over and saved whether or not the vote is given: follower, no leader, no votes, no election |
| Handlers.VoteKeepsRole | src/raft/raft_node.cpp:92-128 | within its term a voter changes nothing but a vote it gives |
| Handlers.CandidateYields | src/raft/raft_node.cpp:262-273 | a reply of a higher term makes a candidate a follower of that term without a vote, saved, its log and commit index untouched |
| Handlers.LeaderYields | src/raft/raft_node.cpp:501-513 | a reply of a higher term makes a leader a follower of that term without a vote, saved, its log and commit index untouched |
| Handlers.VoteCounted | src/raft/raft_node.cpp:280-293 | a granted reply of the election is kept and wins iff more than half of the cluster has voted; the winner leads with nextIndex past its log and matchIndex 0 |
| Handlers.VoteNotCounted | src/raft/raft_node.cpp:254-296 | any other reply that is not of a higher term changes nothing |
| Handlers.MajorityElects | src/raft/raft_node.cpp:254-296 | after any replies in any order, late, refused or repeated, a candidate leads iff more than half of the cluster has supported it, and else has kept exactly its supporters |
| Handlers.AppendAnswered | src/raft/raft_node.cpp:130-157 | a request is accepted iff it is not of an older term and the entry before its own is there with its term; answer and node take the higher term, and the node follows the sender and saves |
| Handlers.AppendRefused | src/raft/raft_node.cpp:159-178 | a refusal changes no log and applies nothing, and names the log's length or the conflicting term and the start of its stretch |
| Handlers.AppendStores | src/raft/raft_node.cpp:180-212 | position by position, what an accepted request leaves in the log |
| Handlers.AppendCommits | src/raft/raft_node.cpp:214-219 | an accepted request moves the commit index to the leader's, cut at the last position, iff that is larger, and then every command up to there has been applied in order |
| Handlers.Applies | src/raft/raft_node.cpp:577-600 | applying hands over exactly the committed commands not yet applied |
| Handlers.CommandAnswered | src/raft/raft_node.cpp:390-407 | an answer other than -1 is the place of the command, at the end of a log otherwise unchanged; the answer is -1 iff the node does not lead |
| Handlers.RequestMade | src/raft/raft_node.cpp:688-718 | a request carries the leader's term, id and commit index, the place before nextIndex with its term, and every entry from nextIndex on |
| Handlers.SuccessNoted | src/raft/raft_node.cpp:515-535 | a success reply sets one peer's indices to the leader's end, and the commit index becomes the last position of the leader's term that more than half of the cluster is known to hold, if larger |
| Handlers.RefusalNoted | src/raft/raft_node.cpp:536-568 | a refusal moves one peer's nextIndex behind the leader's last entry of the conflicting term, or to where the follower says if there is none, but not below 1, and nothing else |
| Handlers.Restarts | src/raft/raft_node.cpp:11-40 | only the saved term, vote and log survive a restart |
| Elections.AtMostOneLeader | src/raft/raft_node.cpp:254-296 | Election Safety: over every run, nodes that lead in the same term, at any two times, are the same node |
| ElectionSafety.WinnerIsFirst | src/raft/raft_node.cpp:280-293 | a candidate that reaches a majority finds no leader recorded for its term |
| ElectionSafety.FinalVotersFollow | src/raft/raft_node.cpp:144-157 | a request of its own term finds every voter of that term's leader a follower, so none of them forgets its vote |
| ElectionSafety.StepKeepsElectionInv | src/raft/raft_node.cpp:92-157 | every event, crashes included, keeps the invariant that ties votes, elections, packets and disks together |
| Elections.TermAndVoteSurvive | src/raft/raft_node.cpp:92-157 | over every run the term never falls, disk term and vote equal the node's, the disk log starts the log and is all of it unless the node leads, and a vote is never moved within a term except by being forgotten where a leader was elected without it |
| Elections.VoteAfterRequest | src/raft/raft_node.cpp:144-157 | a request of at least the node's term leaves the vote alone iff the node was a follower or had no vote |
| Elections.VotesTwiceInOneTerm | src/raft/raft_node.cpp:144-157 | a run of three nodes in which one votes for itself and then, in the same term, grants its vote to another candidate |
| LogMatching.StepKeepsLogInv | src/raft/raft_node.cpp:159-207 | every event keeps every log and request traceable to the leaders of its entries' terms |
| LogMatching.MergeAccepted | src/raft/raft_node.cpp:159-207 | an accepted request leaves the log as it was or equal to the leader's up to the request's end, holding the leader's entries that far and losing nothing it shared |
| Logs.LogsMatch | src/raft/raft_node.cpp:159-207 | Log Matching: over every run, same term at one position, on any nodes at any times, means equal logs up to it |
| Logs.EntriesComeFromTheLeader | src/raft/raft_node.cpp:159-207 | provenance: up to any entry, a log equals that of whoever leads the entry's term, as far as that log reaches, also after that leader crashed |
| Logs.RequestsMatchLogs | src/raft/raft_node.cpp:688-718 | a request and a log, at any two times: an entry of the request with the term that the log holds at its position brings nothing new up to there, and its consistency check holds |
| Logs.RequestsMatch | src/raft/raft_node.cpp:688-718 | two requests, of any leaders at any times: entries of one term for one position mean equal entries for all positions up to it that both carry, and matching consistency checks |
| Logs.UpToDateMeans | src/raft/raft_node.cpp:865-878 | over every run, a log passes the up-to-date test against another, of any node at any time, iff it ends in a later term or has the other one as a beginning |
| Logs.VoteGiven | src/raft/raft_node.cpp:92-128 | over every run, a request that carries the end of some node's log gets a vote iff term and vote allow it and that log ends in a later term or continues the voter's; the reply and the voter's new term and vote are stated |
| LeaderCompleteness.UpToDateHolds | src/raft/raft_node.cpp:865-878 | a candidate that passes the up-to-date test against a voter has what the voter has of a committed prefix |
| LeaderCompleteness.Completeness | src/raft/raft_node.cpp:648-673 | in any state that satisfies the invariant, the recorded log of every leader of a later term starts with what was committed (induction on terms) |
| LeaderCompleteness.AckCrash | src/raft/raft_node.cpp:390-407 | a leader that crashes with what it believes committed on its disk keeps all it has acknowledged, whatever unsaved entries it loses |
| CommitCounting.CountIsSize | src/raft/raft_node.cpp:656-662 | counting match indices counts distinct nodes |
| CommitCounting.CommitIsOrderStatistic | src/raft/raft_node.cpp:629-673 | with sorted terms bounded by the current one, the scan sets the commit index to the majority-th largest known index iff that is above it and of the current term, and else leaves it |
| Commitment.DeliveredApplied | src/raft/raft_node.cpp:214-219 | a follower commits the leader's commit index and never past prevLogIndex plus the number of entries, though it cuts at its own last index |
| Commitment.StepKeepsRaftInv | src/raft/raft_node.cpp:471-570 | every careful event keeps the whole invariant of commits, acknowledgements and applied commands |
| CarefulRuns.CommittedStaysWithLeaders | src/raft/raft_node.cpp:648-673 | Leader Completeness over careful runs: what a leader commits by counting is in the log of every leader of every later term, at any time |
| CarefulRuns.AppliedSequencesAgree | src/raft/raft_node.cpp:577-627 | State Machine Safety over careful runs: of the command sequences any two nodes applied, at any two times, one starts the other |
| CarefulRuns.AppliedExactly | src/raft/raft_node.cpp:577-627 | lastApplied, commit index and log stay in order, and the callback has received exactly positions 1 to lastApplied, so the out-of-range branch is never taken |
| CarefulRuns.ProgressIsKept | src/raft/raft_node.cpp:188-219 | in every careful step that is not a crash the commit index does not fall, applied commands only grow, and a follower commits nothing unverified |
| CarefulRuns.AcceptedIsCommitted | src/raft/raft_node.cpp:214-219 | over every careful run an accepted request makes the follower's commit index the larger of its own and the leader's, uncut, and if it moved the follower has applied exactly the commands up to it |
| Progress.LeaderServes | src/raft/raft_node.cpp:390-407 | from any state of a careful run, a leader and reachable peers that make a majority with it can go on so that a given command is applied by all of them as the same number |
| Majorities.MajorityLeads | src/raft/raft_node.cpp:226-296 | from any state of a careful run the nodes of any majority can go on, alone and without a crash, until one of them leads in a term as high as all of theirs |
| Majorities.MajorityServes | src/raft/raft_node.cpp:577-686 | from any state of a careful run the nodes of any majority can go on, alone and without a crash, until each has applied any given further command, with the same number for all, after all it had applied before |
| Backoff.ExchangeIsCareful | src/raft_node_server.cpp:193-206 | a remote call of a leader to a peer that is not ahead of its term is three events of the cluster, each of them careful |
| Backoff.RejectionLowers | src/raft/raft_node.cpp:538-568 | every rejection lowers nextIndex strictly and keeps it at least 1, also when the leader owns the conflicting term |
| Backoff.AcceptanceReplicates | src/raft/raft_node.cpp:517-531 | an accepted exchange leaves the leader's whole log as a prefix of the follower's |
| Backoff.BackoffTerminates | src/raft/raft_node.cpp:538-568 | from every reachable state, at most nextIndex exchanges replicate the leader's unchanged log to the peer |
| Replies.SuccessLicenses | src/raft/raft_node.cpp:517-531 | a success reply warrants a length of the leader's log iff the request reached that far |
| Replies.RecordedMatchIsTrue | src/raft/raft_node.cpp:517-531 | the recorded matchIndex is true of every possible sender iff the request reached the leader's present last entry |
| Assumptions.StaleReplyLosesACommit | src/raft/raft_node.cpp:517-531 | a run, careful but for one stale reply, in which a later leader lacks a committed entry |
| Assumptions.StaleReplySplitsApplied | src/raft/raft_node.cpp:517-531 | a run, careful but for one stale reply, that ends with two nodes neither of whose applied commands start the other's |
| Assumptions.EarlyCrashLosesACommit | src/raft/raft_node.cpp:390-407 | a run, careful but for one crash of a leader with a committed entry unsaved, in which a later leader lacks that entry |
| Streams.PrintThenParse | include/raft/log_entry.h:44-68 | every int survives printing and stoi, every length also stoull |
| Streams.InputStream.GetLine | include/raft/log_entry.h:60-64 | the extraction loop computes getline, failing only at the end of the text |
| Codecs.EntryRoundTrip | include/raft/log_entry.h:44-83 | an entry comes back from its text whatever bytes its command holds and whatever text follows |
| Codecs.DeserializeEntry | include/raft/log_entry.h:56-83 | the stream parser computes the entry decoding, failures included |
| Codecs.SerializeState | src/storage/persister.cpp:130-151 | the printing loop computes the state text |
| Codecs.DeserializeState | src/storage/persister.cpp:153-222 | the parsing loop computes the state decoding, every failure included |
| Codecs.StateRoundTrip | src/storage/persister.cpp:130-222 | what is restored is what was saved: any term, any vote, any commands |
| Codecs.SerializeArgs | include/raft/rpc_messages.h:144-156 | the printing loop computes the request text |
| Codecs.DeserializeArgs | include/raft/rpc_messages.h:161-213 | the parsing loop computes the request decoding, negative counts and every other failure included |
| Codecs.ArgsRoundTrip | include/raft/rpc_messages.h:144-213 | what arrives is what was sent, for any number of entries and any bytes, through the skipped delimiters |
| Codecs.StateThenRest | src/storage/persister.cpp:153-222 | text behind a state text is ignored |
| Layouts.Numerals | include/raft/log_entry.h:44-48 | numbers are decimal, most significant digit first, with a minus sign in front of a negative one |
| Layouts.EntryLayout | include/raft/log_entry.h:44-48 | split at |, the pieces are term, index and length of the command, and the command ends the text |
| Layouts.StateLayout | src/storage/persister.cpp:130-151 | the first three lines are term, vote and number of entries |
| Layouts.LogLayout | src/storage/persister.cpp:143-148 | the entries follow in order, each as length, line end and text |
| Layouts.ArgsLayout | include/raft/rpc_messages.h:144-148 | split at |, the first six pieces are term, leader, previous index, previous term, commit index and number of entries |
| Layouts.EntriesLayout | include/raft/rpc_messages.h:150-153 | the entries follow in order, each behind a delimiter, its length and a delimiter |
| TornTexts.TornStateRefused | src/storage/persister.cpp:153-222 | no proper beginning of a state text parses |
| TornTexts.TornRequestRefused | include/raft/rpc_messages.h:161-213 | no proper beginning of a request text parses |
| SkipLists.LessTransitive | include/storage/skiplist.h:144-147 | the key order is transitive |
| SkipLists.LessMeans | include/storage/skiplist.h:144-147 | a key is less iff it is a proper beginning of the other or has the smaller byte at the first difference |
| SkipLists.LessTotal | include/storage/skiplist.h:144-147 | the key order leaves no two keys uncompared |
| SkipLists.KeysCount | include/storage/skiplist.h:290-292 | a sorted list that holds a map has one node for each key |
| SkipLists.LinkIn | include/storage/skiplist.h:223-226 | rewiring two pointers puts a node into one level and leaves the other levels linked |
| SkipLists.LinkOut | include/storage/skiplist.h:270-275 | rewiring one pointer takes a node out of one level and leaves the other levels linked |
| SkipLists.UnlinkLevels | include/storage/skiplist.h:270-275 | stopping at the first level that does not point to the node takes it out of every level |
| SkipLists.StoppedBefore | include/storage/skiplist.h:189-195 | where the walk stops on any level is the last node of that level before the key's place |
| SkipLists.SkipList.Levels | include/storage/skiplist.h:176-285 | in every reachable list level 0 visits every node, pointers lead to larger keys and to nodes of the level, and levels above the current one are empty |
| SkipLists.SkipList.RandomLevel | include/storage/skiplist.h:87-94 | the level is the number of lucky draws before the first unlucky one, or 15 |
| SkipLists.LevelsDrawn | include/storage/skiplist.h:87-94 | exactly the levels 0 to 15 can be drawn, and the draws decide the level |
| SkipLists.SkipList.Search | include/storage/skiplist.h:139-161 | finds exactly the keys of the map, with their values |
| SkipLists.SkipList.Insert | include/storage/skiplist.h:176-230 | updates the map at the key, tells new keys from old, gives a new key a node of the drawn level, and keeps the structure |
| SkipLists.SkipList.Remove | include/storage/skiplist.h:244-285 | removes the key from the map, tells whether it was there, and keeps the structure |
| SkipLists.SkipList.GetSize | include/storage/skiplist.h:290-292 | the counter is the number of keys of the map |
| Commands.CommandRoundTrip | src/storage/command.cpp:24-101 | a command survives its text iff its key is not empty, a PUT key has no colon, and no other command has a value |
| Commands.TextRoundTrip | src/storage/command.cpp:44-101 | every accepted text is the text of the well-formed command it gives |
| KVStores.KVStore.ApplyCommandWithResult | src/storage/kv_store.cpp:64-93 | contents and answer are those of the plain-map interpreter, and by kind of text: a PUT stores the value, a GET answers VALUE: and the stored value or NOT_FOUND, a DELETE takes the key out and tells whether it was there, any other text is refused and changes nothing |
| KVStores.Replay | src/storage/kv_store.cpp:64-93 | a store fed with any texts, for every level drawn, ends with exactly the keys whose last PUT no DELETE follows, with its value, and has answered each GET and DELETE by that rule at its place |
| KVStores.HistoryIsRight | src/storage/kv_store.cpp:64-93 | over any list of texts every answer is the right one for its place in the history, and the contents are what the history leaves |
| KVStores.TextsBehave | src/storage/kv_store.cpp:64-93 | well-formed commands sent as texts have the effect and the answers of the commands |
| KVStores.PrefixAnswers | src/storage/kv_store.cpp:64-93 | feeding more commands does not change the answers given before |
| Replicas.InterpretRest | src/raft/raft_node.cpp:577-600 | applying a list is applying its beginning and then its rest |
| Replicas.StoresAgree | src/raft_node_server.cpp:304-306 | over careful runs the store that has applied less has given the same answers and, fed with what it lacks, becomes the other; equal progress means equal stores |

## Left out

- Transport: gRPC and socket servers and clients and generated protobuf code are the unreliable network of the cluster.
- Timers, heartbeats and the thread pool: any node may time out or send at any moment. That the timing of a real network ever lets a majority act undisturbed is not part of this model; what it can do then is.
- `submitCommand`, pending commands and condition variables, with the single-node shortcut: client plumbing around the modelled handlers.
- `becomeLeader`, `becomeFollower` and the unused `replicateLog`, `sendAppendEntriesAsync`, `sendRequestVoteAsync`, `getRPCClient`: the server does not drive the protocol through them.
- File writes, renames and save failures of `Persister`: a save is atomic and succeeds; a missing file is an empty one.
- `KVClient`, the command-line programs, `ClusterConfig`, `display`, `validate` and logging: user interface.
- Integer width: terms, indices and counts do not overflow, and a number too large for its C++ type is not refused by the parsers; a minus sign in an unsigned length wraps around 2^64 as in the library.
- Codecs.DeserializeState: a declared length or entry count too large for memory makes the C++ code throw (out of `deserializeState` itself in one place, `src/storage/persister.cpp:198-206`); the model refuses the text, as the request parser does.
- A negative `prevLogIndex` in a received request: the C++ handler would index before its log; no node sends one.
- The codecs of the two vote messages and of the AppendEntries reply, plain getters, and the store's `put`, `get`, `remove`, `size` and `applyCommand`: they would only add easy members.
- A command text that does not parse: the C++ callback throws through the apply loop; the model gives an error answer and changes nothing.
- Freed nodes: `remove` deletes the node it unlinks; the model drops it from the list and leaves memory to the collector.
- Strings are sequences of characters that stand for bytes; key order compares them as unsigned.
