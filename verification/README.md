# Crane: a Dafny model and its proofs

Crane is a small stream processor that runs on top of a gossip membership service, a bully
election and a replicated file store. This project models the six pieces of logic that remain
when sockets, threads and serialisation are taken away, and proves what they promise over whole
runs: for every interleaving, every loss or reordering that is possible, any number of
participants and any number of rounds.

Each piece has two halves. A *transition system* on values describes the whole distributed
protocol; an action is one atomic step of one participant, and a run is any sequence of enabled
actions. Beside it the *code of one participant*, a class whose methods update its fields by the
loops of the original, is proved to perform exactly the steps that the transition system takes.

| piece | protocol and theorems | code of one participant |
|---|---|---|
| stream dataflow | Routing, Pipeline, Conservation, WordCount, Draining | Worker |
| leader election | Election, ElectionSafety, ElectionTheorems, ElectionGates | Candidate |
| membership | Ring, Gossip, GossipTimed, GossipCrash, GossipLimits | Member, Addresses |
| file transfer | FileReader, Transfer | FileReader, Fetch |
| replicated files | Replication, ReplicationTheorems, ReplicationLimits, FormerMasters, Commands, IndexQueues, FailureRounds | Master |
| topologies | Topology, TopologyTheorems, Wire, Placement, Connections | Builder, Nimbus |

`dafny verify dfyconfig.toml` checks everything. Options, Text and
Collections are shared by the others.

## Main results

- **Dataflow.** `Draining.EveryRunEndsSequential`: from any reachable state, if no further line is
  read, every schedule ends after a bounded number of steps, and then the counter responsible for
  a word holds what a sequential word count computes on the lines read, and the word's running
  counts have been printed once each, in order, by one printer.
- **Election.** `ElectionTheorems.LeadershipIsSafe` and `ElectionsEndInAgreement`: only the minimum
  announces itself, it believes in itself only after everybody else does, and every cascade ends
  with everybody agreeing. `UnsafeClearExactly` says which overlap of two threads breaks this, if
  and only if, and `OverlapBreaksSafety` gives a run in which it does.
  `ElectionGates.TriggersSucceedExactly`: from every state at rest, which triggers elect the minimum
  and which change nothing.
- **Membership.** `GossipTimed.CountersComeFromTheirOwner`: causality over all runs.
  `GossipLimits.NoFalseFailureExactly` and `GossipLimits.NoResurrectionExactly`: a live monitored
  member is never removed, and a removed crashed member never taken back, in any timed run, if and
  only if the stated bound on periods and delays holds. `Ring.SurvivorsStayConnected` and
  `Ring.OneMoreFailureCutsOff`: the overlay tolerates exactly the number of failures it is built for.
- **Transfer.** `Transfer.ClientHoldsAPrefix`: under lost, repeated, reordered and damaged replies
  (damaged: not as long as their size field says, which is all that the client checks) the client
  holds a prefix of the file and the server never throws. `Transfer.CompletionExactly`: when a
  transfer can still be completed, if and only if.
- **Replication.** `ReplicationTheorems.EveryFileIsReplicated` and `NoFileIsLost` over orderly runs of
  puts, deletions, failures, takeovers and joins, those that move the leadership included, and runs
  in `ReplicationLimits` that show why they have to be orderly. `IndexAgreesWithStores` over all
  guarded runs, whatever is under way when members fail. `DeletionHoldsExactly`: when a deletion
  is final. `MasterCode.FailureIsQuietExactly`: when a failure makes a member command that is no
  longer master, and `FailureRounds.FailureRestoredExactly`: from the indexes alone, before anything
  is drawn or sent, when a failure is repaired for sure.
- **Topologies.** `Wire.TreeIsTheDeclaredGraph`: what the master connects is what the user declared,
  for every graph, with the exact multiplicity. `NimbusCode.Nimbus.PrepareTopology`,
  `PlacementIsBalanced`: instances are placed evenly, completely and at addresses that never
  coincide. `Connections.SendersAgree`: all senders of a stream send a key to the same instance.

## What turned out not to hold

The following are properties of the code that one might expect and that it does not have; each has
a lemma with a concrete input or an exact condition.

- An election thread that clears `okReceived` (daemon/src/election/Candidate.cpp:151) while another
  thread of the same node has its replies but has not looked at the flag makes a node that is not
  the minimum announce itself. The gate does not prevent it: it can be opened again between the
  passing of the gate and the clearing (`ElectionTheorems.UnsafeClearExactly`, `OverlapBreaksSafety`).
- An election can leave a gate closed: a thread that passes just after its node has been told of the
  leader closes it again, and if the request is not heeded, because the leader is still collecting
  confirmations, nothing opens it before the next announcement (`ElectionGates.GateClosedExactly`,
  `GateStaysClosed`). Should the leader fail before that, the node does not react, and if it is the new
  minimum nobody succeeds (`ElectionGates.NobodyIsElected`, `NobodySucceeds`). The three-second pause in
  front of the gate, which is not part of the model, makes the timing unlikely and does not exclude it.
- The comment at daemon/src/filesys/DFile.cpp:321 says that the server waits for a re-fetch of the
  last piece. It does, but its reply omits two required fields and is rejected, so a last piece that
  is not full and is lost once can never be had (`Transfer.CompletionExactly`). Files of whole
  chunks are not affected (`Transfer.WholeChunksNeverStuck`).
- A deletion while anything is under way for the file does not delete it (`Replication.DeletedExactly`,
  `ReplicationTheorems.DeletionHoldsExactly`, `ReplicationLimits.DeletionUnderWayComesBack`), and a
  deletion while a member of the index has a report under way makes the index wrong
  (`ReplicationTheorems.DeletionAgreesExactly`, `ReplicationLimits.DeletionLeavesFalseReport`).
- A member that joins a group of fewer than three and does not become its master does not get
  replicas, so a file can be lost although another member was there
  (`ReplicationTheorems.JoinFullExactly`, `ReplicationLimits.SmallJoinLosesAFile`).
- A failure, or a change of the master, while copies are under way over-replicates a file, for some
  draw, exactly when there are then more than three members
  (`ReplicationTheorems.OverReplicationExactly`). The next failure can then make the number of
  missing replicas negative and the sampling loop endless
  (`ReplicationTheorems.ChoiceExactly`, `MasterCode.ReplicateIsAChoice`,
  `ReplicationLimits.UnsettledFailureHangsTheMaster`).
- A master that is displaced by a joiner with a smaller id keeps its index, and commands with it when
  a member fails. The receiver refuses without a reply, which ends its service thread
  (daemon/src/message/DFileMessageHandler.cpp:179-183, daemon/src/filesys/DFile.cpp:396-410), so the
  master in office waits for ever if it needs that member, and a file stays short of replicas. When
  this happens is exact (`MasterCode.FailureIsQuietExactly`, `Commands.CarriedOutExactly`,
  `FailureRounds.FailureRestoredExactly`). In a
  settled group of at least three the first failure of a member that holds a file is such a case,
  unless it is the displaced master (`FormerMasters.FirstFailureExactly`), and `ReplicationLimits.LeadershipMoves`,
  `FailureIsNotQuiet`, `FormerMasterGoesFirst` and `FileStaysShort` give a run.
- Every edge of a node that is declared a spout and is also reachable from a spout is compiled twice
  (`TopologyTheorems.ParentsAreTheEdges`).
- Workers are found by the concatenation of topology and bolt name, so one topology can kill, start
  and reconnect the workers of another (`Connections.KillReachesOthersExactly`,
  `AddReachesOthersExactly`, `ConfigReachesOthersExactly`, `TopologiesCollide`).

## Assumptions

- Dataflow: connections are reliable and FIFO per sender and receiver, each tuple has a first field
  (a subset type), and the lists of connections are not empty (proved of what the master configures
  in `Connections.NoEmptyConnection`). The pipeline is the word-count topology with any number of
  instances in each tier; plain `char` is signed. The outputs of one run of a bolt are appended to the
  output queue in one step, in which the send thread does not drain it.
- Election: one stable membership list, every request is answered. These are one step each: counting
  a confirmation, checking the count and, if it is complete, adopting the leader; adopting an
  announced leader, telling the listeners and opening the gate; setting the counts of a round and
  sending its announcements; clearing `okReceived` and sending the requests. Passing the gate is a
  step of its own. Overlapping threads are part of the model; the theorems about safety exclude
  exactly the overlap named above. Termination does not.
- Gossip: no graceful leave and no restart under an old id. The clock is read once per round, where
  the code reads it at every merge, clean-up and heartbeat check of the round. Time is a number of
  nanoseconds, the comparisons are in whole milliseconds as in the code. Delivery bounds are stated
  in the theorems that need them.
- Transfer: the source file does not change, the target is empty at the start, requests keep their
  order.
- Replication: a PUT exchange is one step, a failed member has left the membership list when its
  failure is handled, listing and re-replicating by a new master is one step. The elections have
  settled, so the master is the member with the smallest id (proved in `ElectionTheorems`): a joiner
  with the smallest id becomes master, and any other joiner changes nothing but the membership.
  Requests reach the master in office; a report that a displaced master still takes counts as
  arrived before it was displaced. Every node handles every failure, but only former masters have an
  index to do it with. The runs of the store model are those in which this makes them command nothing:
  that is part of `Replication.Orderly` and of `ReplicationTheorems.GuardedRun`, and what happens
  otherwise is the subject of `Commands` and `FailureRounds`, where one command, from sending to
  reply, is one step. Orderly runs ask for more than one failure needs
  (`FailureRounds.QuietSuffices`), as a refused command silences its receiver for later failures too.
- Topologies: the membership list comes in the order of the ids (daemon/src/DMember.cpp:559-568), so
  going through the supervisors in list order is going through the assignment in key order
  (daemon/src/nimbus/Nimbus.cpp:205); `setParent` names a declared node, the id of a member is not empty, there is a member
  besides the master. Groupings are any of the four; only the two that the workers know are parsed.
- Counters, ticks, sizes and ports do not exceed the range of their integer type, except where the
  conversion is the point (hash to unsigned, number of missing replicas to unsigned), which is
  modelled.
- Strings are sequences of characters that stand for bytes.

## Model

| member | source | states |
|---|---|---|
| Text.LessTotal | utils/SystemHelper.h:114-126 | the order by which ids are compared is strict and total |
| Text.LessExactly | utils/SystemHelper.h:117 | a string is smaller if and only if, where the two first differ, it ends or has the smaller character |
| Text.DecimalReadsBack | user-code/WordCountTopology/WordCountBolt.cpp:28 | a rendered counter reads back as the counter and consists of digits |
| Text.DecimalIsShort | user-code/WordCountTopology/WordCountBolt.cpp:28 | a numeral is never empty and has no zero in front |
| Text.DecimalDigits | user-code/WordCountTopology/WordCountBolt.cpp:28 | the digits are the usual ones, and a numeral grows at its end |
| Text.WordsReadBack | user-code/WordCountTopology/SplitSentenceBolt.cpp:24-27 | tokenising undoes writing: tokens separated by any whitespace come back unchanged and in order |
| Text.WordsOfToken | user-code/WordCountTopology/SplitSentenceBolt.cpp:24-27 | a token by itself, with nothing behind it, is one word |
| Text.WordsOfConcat | user-code/WordCountTopology/SplitSentenceBolt.cpp:24-27 | a separator, wherever it stands, separates: the words are those in front of it and then those behind it |
| Text.SpacesAre | user-code/WordCountTopology/SplitSentenceBolt.cpp:24-27 | exactly six characters separate words |
| Text.WordsAreTokens | user-code/WordCountTopology/SplitSentenceBolt.cpp:24-35 | every emitted word is nonempty and free of whitespace |
| Routing.Home | utils/SystemHelper.h:83-87 | the index for a key is in range, for negative hashes too |
| Routing.HashOfOne | utils/SystemHelper.h:83-88 | a character counts as its code below 128 and as its code less 256 from 128 on |
| Routing.HashOfConcat | utils/SystemHelper.h:83-88 | the hash is the sum over the characters |
| Routing.HomeExactly | daemon/src/worker/Worker.cpp:213-216 | the connection is the hash modulo their number, where a negative hash has become 2^64 larger |
| Routing.Part | daemon/src/worker/Worker.cpp:208-229 | the part for a connection holds only tuples of the batch that hash there |
| Routing.FieldRouteDest | daemon/src/worker/Worker.cpp:208-249 | field grouping sends connection k exactly the tuples that hash to k, in order, and nothing empty |
| Routing.RoutedPartsWeaveBack | daemon/src/worker/Worker.cpp:208-249 | what the connections receive interleaves back to the batch: nothing lost, repeated or reordered |
| Routing.RouteOrdered | daemon/src/worker/Worker.cpp:232-247 | the messages go out in strictly increasing connection order, one per connection |
| Routing.PartOf | daemon/src/worker/Worker.cpp:211-229 | all tuples of a key go to the key's connection and to no other |
| Conservation.StepConserves | daemon/src/worker/Worker.cpp:162-302 | one step of any thread keeps the occurrences of a word in lines, batches, channels, queues and count maps; reading a line adds the line's |
| Conservation.BoltLoad | user-code/WordCountTopology/WordCountBolt.cpp:21-31 | running a bolt on a tuple moves its occurrences to the outputs or into the counts |
| Conservation.RouteLoad | daemon/src/worker/Worker.cpp:181-249 | building messages from a drained batch loses no occurrence |
| Pipeline.ShuffleReaches | daemon/src/worker/Worker.cpp:187-206 | shuffle grouping sends the whole batch on one connection, and any of them can be chosen |
| Pipeline.SplitOutputsAre | user-code/WordCountTopology/SplitSentenceBolt.cpp:22-35 | the outputs for a sentence are its words in order, with ids that count on |
| Pipeline.SequentialCountIs | user-code/WordCountTopology/WordCountBolt.cpp:21-31 | the sequential program counts how often a word occurs among all words of the lines |
| WordCount.ResultsAre | user-code/WordCountTopology/WordCountBolt.cpp:23-30 | the i-th result for a word is the word with the numeral of i |
| WordCount.StepKeepsPlaced | daemon/src/worker/Worker.cpp:208-249 | tuples and count entries are only ever at the instance their key belongs to |
| WordCount.StepKeepsOrder | daemon/src/worker/Worker.cpp:208-302 | printed results, results on the way and queued results of a word are (w,1), ..., (w,count) in this order, after every step |
| WordCount.RunsStayGood | daemon/src/worker/Worker.cpp:162-302 | conservation, placement and order hold in every state of every run |
| WordCount.PrintedInOrder | user-code/WordCountTopology/WordCountBolt.cpp:23-30 | at any moment one printer has printed exactly (w,1), ..., (w,m) for a word and the others nothing |
| WordCount.CountersDisjoint | user-code/WordCountTopology/WordCountBolt.cpp:23-24 | key sets of different counter instances are disjoint |
| WordCount.NeverAhead | user-code/WordCountTopology/WordCountBolt.cpp:21-31 | no interleaving over-counts |
| WordCount.QuiescentIsSequential | daemon/src/worker/Worker.cpp:162-302 | at quiescence counts equal the sequential word count and every running count has been printed once |
| Draining.StepUsesEffort | daemon/src/worker/Worker.cpp:133-302 | every step except reading a line uses up effort, so nothing circulates for ever |
| Draining.RunsEnd | daemon/src/worker/Worker.cpp:133-302 | a run without new input is no longer than the effort left |
| Draining.StuckIsQuiescent | daemon/src/worker/Worker.cpp:133-302 | no deadlock: when nothing can move, nothing is left to do |
| Draining.EveryRunEndsSequential | daemon/src/worker/Worker.cpp:162-302 | main theorem: any schedule from any reachable state ends, and ends with the sequential result |
| WorkerProcess.ChildWorker.ReadAllTuples | daemon/src/worker/Worker.cpp:152-160 | empties the output queue and returns it in order |
| WorkerProcess.ChildWorker.FieldMessages | daemon/src/worker/Worker.cpp:208-249 | the loop that fills a message per destination computes the field routing |
| WorkerProcess.ChildWorker.DataSend | daemon/src/worker/Worker.cpp:162-257 | a round of the send thread is the drain step of the model |
| WorkerProcess.ChildWorker.ReceiveMessage | daemon/src/worker/Worker.cpp:133-150 | taking a message is the receive step |
| WorkerProcess.ChildWorker.PushTuple | daemon/src/worker/Worker.cpp:374-377 | pushing one tuple is the push step |
| WorkerProcess.ChildWorker.PushTuples | daemon/src/worker/Worker.cpp:379-382 | all tuples of a message are appended in order |
| WorkerProcess.ChildWorker.TakeAll | daemon/src/worker/Worker.cpp:280-292 | emptying the input queue is the take step |
| WorkerProcess.ChildWorker.SplitSentence | user-code/WordCountTopology/SplitSentenceBolt.cpp:22-35 | one output per word, ids counting up from the tuple's |
| WorkerProcess.ChildWorker.CountWord | user-code/WordCountTopology/WordCountBolt.cpp:21-31 | the count of the word is one more and is emitted with it as a numeral, under the next id |
| WorkerProcess.ChildWorker.ProcessNext | daemon/src/worker/Worker.cpp:294-300 | running the bolt on the oldest tuple is the process step |
| Election.FireLosesWeight | daemon/src/election/Candidate.cpp:36-74 | whatever thread or message acts, the weight of what is going on falls: a start at rank r outweighs starts at all lower ranks |
| Election.CascadeEnds | daemon/src/election/Candidate.cpp:36-162 | every cascade ends within a bound computed from what is pending, for every schedule and overlap |
| ElectionSafety.FireConfirm | daemon/src/message/ElectionMessageHandler.cpp:30-38 | counting a confirmation keeps the round invariant: received plus owed is the number of members |
| ElectionSafety.FireAnnounce | daemon/src/message/ElectionMessageHandler.cpp:20-28 | a member has adopted the leader before its confirmation exists |
| ElectionSafety.PassesGate | daemon/src/election/Candidate.cpp:40-45 | a thread that finds the gate open closes it and changes nothing else; the minimum has one thread behind the gate at most |
| ElectionSafety.RoundOpens | daemon/src/election/Candidate.cpp:59-66 | when the minimum announces itself everybody owes it one confirmation |
| ElectionSafety.NodeAsks | daemon/src/election/Candidate.cpp:149-154 | a thread that clears okReceived and asks keeps every waiting thread of its node certain of an OK |
| ElectionTheorems.FireKeepsInv | daemon/src/election/Candidate.cpp:36-162 | the election invariant survives every step, except clearing okReceived under a thread that has all its replies |
| ElectionTheorems.LeadershipIsSafe | daemon/src/election/Candidate.cpp:286-296 | over any rounds only the minimum announces itself, and it holds itself as leader only when all others do |
| ElectionTheorems.UnsafeClearExactly | daemon/src/election/Candidate.cpp:149-162 | an impostor can announce itself next if and only if okReceived is cleared while another thread of the node has all its replies and has not looked at it |
| ElectionTheorems.ElectionsEndInAgreement | daemon/src/election/Candidate.cpp:366-403 | once a node with an open gate is triggered, with the gate of the minimum open, every election ends within the bound, and when nothing can act every member holds the minimum as leader, whose gate is open again |
| ElectionTheorems.SomethingCanAct | daemon/src/election/Candidate.cpp:149-162 | no deadlock: while anything is pending something can act, and without clearing a flag under a thread |
| ElectionTheorems.ListenersAreUpToDate | daemon/src/election/Candidate.cpp:366-377 | over all runs the leader remembered for the listeners is the leader held, so that they are told of every change and of nothing else |
| ElectionGates.GateClosedExactly | daemon/src/election/Candidate.cpp:40-45 | a gate is closed if and only if a thread has passed it since its node last adopted a leader |
| ElectionGates.TriggersSucceedExactly | daemon/src/election/Candidate.cpp:36-74 | threads started at rest elect the minimum in every safe run if its gate and that of a triggered node are open; otherwise no safe run changes any leader |
| ElectionGates.NobodyIsElected | daemon/src/election/Candidate.cpp:40-45 | while the gate of the minimum is closed with nobody behind it and no round going on, no trigger in any safe run makes anybody leader |
| ElectionGates.GateStaysClosed | daemon/src/election/Candidate.cpp:36-74 | a safe run of two members that ends in agreement with the gate of one of them closed |
| ElectionGates.NobodySucceeds | daemon/src/election/Candidate.cpp:335-342 | when the minimum fails after that run, nobody ever announces himself |
| ElectionTheorems.OverlapBreaksSafety | daemon/src/election/Candidate.cpp:149-162 | a run of two members in which the larger id announces itself although the smaller is alive |
| CandidateCode.LowerIdsAreLowerRanks | utils/SystemHelper.h:114-126 | in a sorted list the lower ids are exactly the lower ranks |
| CandidateCode.FindLowerIds | utils/SystemHelper.h:114-126 | the find_if scan returns the ids below, in order |
| CandidateCode.MinElement | daemon/src/election/Candidate.cpp:59 | the index found is that of a smallest id |
| CandidateCode.Candidate.PassGate | daemon/src/election/Candidate.cpp:40-45 | lets a thread pass exactly if the gate is open, and closes it |
| CandidateCode.Candidate.ElectionThread | daemon/src/election/Candidate.cpp:47-151 | behind the gate: the minimum starts a round and announces itself to all, any other member clears okReceived and asks exactly the lower ranks, as the model does |
| CandidateCode.Candidate.SetOkReceived | daemon/src/election/Candidate.cpp:349-352 | is the OK step of the model |
| CandidateCode.Candidate.RequestsJoined | daemon/src/election/Candidate.cpp:156-162 | sends the announcements of the waiting step of the model: without an OK, and only then, to everybody |
| CandidateCode.Candidate.SetNewLeader | daemon/src/election/Candidate.cpp:366-377 | adopts the leader, opens the gate, notifies exactly if the leader is not the last one notified |
| CandidateCode.Candidate.ProcessNewLeader | daemon/src/message/ElectionMessageHandler.cpp:20-28 | is the announcement step of the model |
| CandidateCode.Candidate.ProcessConfirm | daemon/src/message/ElectionMessageHandler.cpp:30-38 | is the confirmation step of the model |
| Addresses.MemberAddresses | daemon/src/message/MessageHandler.cpp:37-79 | the list handed to the overlay is sorted; an id is in it exactly if its first entry in the heartbeat says that it stays, and then as often as it occurs there |
| Addresses.ReadHeartbeat | daemon/src/message/MessageHandler.cpp:39-51 | the loop enters the members of the heartbeat, the first entry of each |
| Addresses.SameMembersSameList | daemon/src/message/MessageHandler.cpp:76-79 | members that received the same ids in any order build the same list |
| Ring.UpdateConnection | daemon/src/DMember.cpp:135-175 | the node connects to the introducer and to exactly the members it should subscribe to; a newcomer to the last ones |
| Ring.ConnectRing | daemon/src/DMember.cpp:164-174 | finds the node and connects to its modular predecessors |
| Ring.PredecessorsDiffer | daemon/src/DMember.cpp:169-170 | the modular predecessors are distinct and different from the node |
| Ring.PredecessorsCounted | daemon/src/DMember.cpp:169-174 | there are as many different predecessors as the overlay asks for |
| Ring.SurvivorsStayConnected | daemon/src/DMember.cpp:135-175 | after any maxFail failures every survivor still hears every survivor, for any group size and any maxFail |
| Ring.OneMoreFailureCutsOff | daemon/src/DMember.cpp:135-175 | the tolerance is exact: one more failure can cut a survivor off |
| Gossip.MergeAllFacts | daemon/src/DMember.cpp:208-224 | merging only raises counters, and a record it changes comes from a received heartbeat and gets the current time |
| Gossip.MergeAllCovers | daemon/src/DMember.cpp:208-224 | everything received has been merged before anything is cleaned up |
| Gossip.StepKeepsCausal | daemon/src/DMember.cpp:193-239 | stored and travelling counters never exceed their owner's and never predate them, after every step |
| Gossip.TickIsMonotone | daemon/src/DMember.cpp:193-224 | a round never lets gossip overwrite the own record, and stored counters do not decrease while their entry stays |
| Gossip.OwnRecordStays | daemon/src/DMember.cpp:202-224 | after merging, the own record is the freshly raised one |
| Gossip.OldNewsIsIgnored | daemon/src/member/Member.cpp:30-39 | news of a counter that is not larger changes nothing, not even the clock |
| Gossip.NewcomerJoins | daemon/src/DMember.cpp:217-222 | an unknown member is entered with its counter and the local time, unless it is leaving |
| Gossip.LeaverIsPassedOnOnce | daemon/src/DMember.cpp:208-309 | a member that says it leaves is passed on as leaving, however late, never taken for failed, forgotten after one heartbeat, and not brought back by the same news |
| GossipTimed.CountersComeFromTheirOwner | daemon/src/DMember.cpp:193-224 | causality over whole runs from freshly started daemons |
| GossipTimed.RecordIsRecent | daemon/src/DMember.cpp:202-238 | when the queue has been merged, the record of a monitored live member is at most period + delay old, even if others' gossip raised its counter first |
| GossipTimed.LiveMemberIsNeverDropped | daemon/src/DMember.cpp:347-381 | no false failure: if period + delay, in whole milliseconds, is at most T_FAIL + T_CLEANUP, a live directly monitored member is never removed |
| GossipCrash.TimeoutsInNanos | daemon/src/member/Member.cpp:41-53 | what the millisecond comparisons mean in nanoseconds: 2.001 and 4.001 seconds |
| GossipCrash.KeptAndReported | daemon/src/DMember.cpp:226-298 | a member is kept if it is leaving or was heard of less than 4.001 seconds ago, and reported if it is leaving or was heard of less than 2.001 seconds ago |
| GossipCrash.GossipHasDied | daemon/src/DMember.cpp:291-298 | once somebody has removed a crashed member no heartbeat that mentions it exists |
| GossipCrash.RemovedMemberStaysAway | daemon/src/DMember.cpp:208-238 | no resurrection: if last refreshes fall in a window and window + delay is at most T_CLEANUP, whoever has removed a crashed member never takes it back |
| GossipLimits.NoFalseFailureExactly | daemon/src/member/Member.cpp:48-53 | the bound is exact: live monitored members are safe in all runs if and only if period + delay is at most T_FAIL + T_CLEANUP |
| GossipLimits.LateHeartbeatsDrop | daemon/src/DMember.cpp:347-381 | for every larger period + delay a run in which a live, regularly ticking member is removed |
| GossipLimits.NoResurrectionExactly | daemon/src/DMember.cpp:208-238 | the bound is exact: removed members stay away in all runs if and only if window + delay is at most T_CLEANUP |
| GossipLimits.SlowGossipResurrects | daemon/src/DMember.cpp:217-223 | for every larger window + delay a run in which a removed member is taken back |
| Membership.Member.UpdateFrom | daemon/src/member/Member.cpp:30-39 | a larger counter replaces the record and restarts its clock |
| Membership.Member.Update | daemon/src/member/Member.cpp:21-28 | sets the record |
| Membership.Member.TimedOut | daemon/src/member/Member.cpp:41-46 | the member is suspect |
| Membership.Member.CleanUp | daemon/src/member/Member.cpp:48-53 | the member is to be removed |
| Membership.DMember.UpdateMembers | daemon/src/DMember.cpp:182-239 | one round computes the model's merged and cleaned table, empties the queue, and reports exactly the removed members |
| Membership.DMember.CreateHeartbeat | daemon/src/DMember.cpp:272-314 | reports leaving and unsuspected members and then drops the leaving ones |
| Membership.DMember.PushMembersToQueue | daemon/src/DMember.cpp:177-180 | heartbeats queue up in order |
| Membership.MergeAllIgnoresEnvelopes | daemon/src/DMember.cpp:208-224 | the daemon's queue and the group model's queue merge alike |
| Membership.MergeSplits | daemon/src/DMember.cpp:210-223 | entries of one heartbeat can be merged one at a time, in any order |
| FileReading.TotalIsCeiling | daemon/src/filesys/DFile.cpp:214-215 | there are exactly as many chunks as cover the file |
| FileReading.NextChunkIsNextSlice | utils/FileHelper.h:36-47 | the k-th call returns the k-th slice although it reads past the end and pops |
| FileReading.EndOfFileExactly | utils/FileHelper.h:24-47 | the flag shows with chunk number size / chunk, so with a whole number of chunks one read later |
| FileReading.FileHelper.Get | utils/FileHelper.h:43 | the next byte, or the flag and a junk byte at the end |
| FileReading.FileHelper.GetNextChunk | utils/FileHelper.h:36-47 | the byte loop is one read of the model, and pops only from a nonempty buffer |
| Transfer.RequestIsAnswered | daemon/src/filesys/DFile.cpp:276-343 | a request the client can have made is answered with the slice asked for; after the end of the file once more, without the required fields, and then no longer |
| Transfer.OtherRequestsAbort | daemon/src/filesys/DFile.cpp:290-338 | the server thread throws exactly on requests for a chunk that is neither the last one sent nor the next one |
| Transfer.StepKeepsLockstep | daemon/src/filesys/DFile.cpp:222-319 | client and server stay in lockstep under lost, repeated and reordered replies, and replies whose length disagrees with their size field |
| Transfer.ClientHoldsAPrefix | daemon/src/filesys/DFile.cpp:356-373 | safety over all runs: a prefix of the source, complete at the end; the counts are in lockstep; the server never throws and never reads on after the end |
| Transfer.HopefulCanFinish | daemon/src/filesys/DFile.cpp:276-319 | from a state with hope there is a continuation that completes the file |
| Transfer.CompletionExactly | daemon/src/filesys/DFile.cpp:321-354 | a transfer can still be completed if and only if it is, or the server is in its main loop, or the reply with the last chunk is still under way |
| Transfer.TimeoutCanBeFatal | daemon/src/filesys/DFile.cpp:282-283 | a server that times out is final unless the client has everything or its last reply is under way |
| Transfer.WholeChunksNeverStuck | daemon/src/filesys/DFile.cpp:276-319 | a file of whole chunks can always be completed as long as the server does not time out |
| FetchCode.FetchClient.RecvNextChunk | daemon/src/filesys/DFile.cpp:356-373 | accepts exactly the awaited chunk with the announced length |
| FetchCode.FetchServer.ServeOne | daemon/src/filesys/DFile.cpp:276-319 | one pass of the loop is the model's answer |
| FetchCode.FetchServer.ServeLastPiece | daemon/src/filesys/DFile.cpp:321-351 | the pass after the loop is the model's answer, a reply that does not parse |
| FetchCode.Fetch | daemon/src/filesys/DFile.cpp:210-246 | without losses the target equals the source after exactly ceil(size / chunk) exchanges, empty files and whole chunks included |
| Replication.StoredIsFull | daemon/src/message/DFileMessageHandler.cpp:78-97 | a PUT commits a new file to exactly min(n, 3) members |
| Replication.FinishedKeeps | daemon/src/filesys/DFile.cpp:249-254 | an arriving copy moves from commanded to held and changes nothing else |
| Replication.ReportedKeeps | daemon/src/message/DFileMessageHandler.cpp:140-149 | an UPDATE enters only what is held |
| Replication.DeletedExactly | daemon/src/filesys/DFileMaster.cpp:254-266 | a deletion leaves nothing behind if and only if nothing was under way for the file |
| Replication.CommandedIsFull | daemon/src/filesys/DFileMaster.cpp:217-250 | commanded copies fill a file up to min(n, 3) |
| Replication.CandidateExists | daemon/src/filesys/DFileMaster.cpp:235-241 | the number of missing replicas is not negative, and while one is missing there is a member to draw |
| ReplicationTheorems.StepKeepsInv | daemon/src/filesys/DFileMaster.cpp:217-283 | index agreement and the bound on replicas survive every orderly step; a failure that is quiet at former masters, and any change of the master, restores full replication |
| ReplicationTheorems.SecondPutIsRefused | daemon/src/message/DFileMessageHandler.cpp:83-95 | a PUT of a file that anybody holds or is about to hold changes nothing |
| ReplicationTheorems.OthersKeepTheirs | daemon/src/filesys/DFileMaster.cpp:361-377 | a failure or a change of the master affects nobody else's files, copies and reports, but for the reports that get lost |
| ReplicationTheorems.StepAgrees | daemon/src/filesys/DFileMaster.cpp:93-127 | every step but a deletion keeps the index in agreement with the stores, whatever is under way |
| ReplicationTheorems.DeletionAgreesExactly | daemon/src/filesys/DFileMaster.cpp:254-266 | a deletion keeps it if and only if no member of the index has a report still under way |
| ReplicationTheorems.IndexAgreesWithStores | daemon/src/filesys/DFileMaster.cpp:93-127 | over all runs whose deletions of f are guarded like that and whose failures are quiet at former masters the index says that m holds f exactly if m does, up to reports under way; if the run is orderly, at most three members hold f |
| ReplicationTheorems.EveryFileIsReplicated | daemon/src/filesys/DFileMaster.cpp:361-377 | over all orderly runs, whose failures are quiet at former masters, a settled file has exactly min(n, 3) holders and the master knows them |
| ReplicationTheorems.FailureRestores | daemon/src/filesys/DFileMaster.cpp:62-74 | after a settled failure or a takeover that is quiet at former masters, and after a join that moves the leadership, every file that is left is full again, also one that a small join had left short |
| ReplicationTheorems.SurvivesExactly | daemon/src/filesys/DFileMaster.cpp:361-371 | a file survives a failure if and only if the failed member was not its only holder |
| ReplicationTheorems.NoFileIsLost | daemon/src/filesys/DFileMaster.cpp:361-371 | through any number of settled failures that are quiet at former masters, the master's own failure too, a file stays until it is deleted |
| ReplicationTheorems.SettlingProgress | daemon/src/message/DFileMessageHandler.cpp:140-149 | copies and reports make progress and disturb nothing, so what is under way settles |
| ReplicationTheorems.DeletionHoldsExactly | daemon/src/filesys/DFileMaster.cpp:254-266 | over whole runs of copies, reports, and puts and deletions of other files: a deleted file is gone if and only if nothing was under way for it when it was deleted |
| ReplicationTheorems.ChoiceExactly | daemon/src/filesys/DFileMaster.cpp:233-241 | the sampling can end if and only if the file has not too many replicas |
| ReplicationTheorems.ReplicationNeverHangs | daemon/src/filesys/DFileMaster.cpp:217-250 | in every state of an orderly run targets can be found for a PUT, and after any failure or change of the master, orderly or not |
| ReplicationTheorems.OverReplicationExactly | daemon/src/filesys/DFileMaster.cpp:217-250 | a failure or a change of the master can make the master ask for too many copies of a file if and only if something is under way that the new index does not know and there are then more than three members |
| ReplicationTheorems.JoinFullExactly | daemon/src/filesys/DFileMaster.cpp:220-225 | a join leaves a full file full if and only if the group has at least three members already or the joiner becomes its master |
| ReplicationLimits.DeletionUnderWayComesBack | daemon/src/filesys/DFileMaster.cpp:254-266 | a run in which a deleted file is back in the index |
| ReplicationLimits.DeletionLeavesFalseReport | daemon/src/filesys/DFileMaster.cpp:254-266 | a run with an unguarded deletion that leaves a report of a file its sender does not hold |
| ReplicationLimits.SmallJoinLosesAFile | daemon/src/filesys/DFileMaster.cpp:361-377 | a run in which a member joins under the only one, the master, which then fails: the file is lost |
| ReplicationLimits.UnsettledFailureHangsTheMaster | daemon/src/filesys/DFileMaster.cpp:235-241 | a run after which no targets exist for the failure of a member that is not the master |
| ReplicationLimits.LeadershipMoves | daemon/src/filesys/DFileMaster.cpp:373-377 | an orderly run in which a settled file has three holders, a member joins and becomes master, and the displaced master keeps its index |
| ReplicationLimits.FailureIsNotQuiet | daemon/src/filesys/DFileMaster.cpp:361-371 | the failure of a holder is then orderly but for the displaced master, and both masters may send their command to the same member |
| ReplicationLimits.FormerMasterGoesFirst | daemon/src/message/DFileMessageHandler.cpp:177-183 | if the displaced master sends first, that member answers nobody any more and the master waits for ever |
| ReplicationLimits.FileStaysShort | daemon/src/filesys/DFileMaster.cpp:361-371 | whatever is sent after that, the command of the master stays unsent, and the file stays at two holders in a group of five with nothing under way |
| FormerMasters.FormersAreMembers | daemon/src/filesys/DFileMaster.cpp:361-377 | over all runs, orderly or not: former masters are members other than the master, and their indexes list members only |
| FormerMasters.LeadKeepsIndexes | daemon/src/filesys/DFileMaster.cpp:373-377 | a displaced master is left with the index it has, earlier ones with theirs |
| FormerMasters.FailureClearsIndexes | daemon/src/filesys/DFileMaster.cpp:361-371 | a failure clears the failed member from the indexes of former masters and nothing else, and no other step changes them |
| FormerMasters.WithoutLeadAllIsQuiet | daemon/src/filesys/DFileMaster.cpp:373-377 | as long as nobody joins to become master every failure is quiet |
| FormerMasters.FirstFailureExactly | daemon/src/filesys/DFileMaster.cpp:361-371 | after a join that moves the leadership of a settled group of at least three, the first failure is quiet if and only if it is that of the displaced master or of a member without files |
| Commands.CarriedOutExactly | daemon/src/message/DFileMessageHandler.cpp:177-183 | the master gets all its commands carried out, in whatever order masters and former masters send, if and only if no former master's first command goes to a member that the master's commands need |
| Commands.EverythingIsDone | daemon/src/filesys/DFileMaster.cpp:129-161 | in that case all commands of the master have been carried out when it cannot send any more |
| Commands.BlockedForEver | daemon/src/filesys/DFile.cpp:396-410 | whoever waits for an answer sends nothing more, whatever the others send; if it is the master nothing more is done |
| Commands.VainCommandSilences | daemon/src/filesys/DFile.cpp:396-410 | a command that is waited for in vain has cost its source: it answers nobody any more, and nothing has been done |
| Commands.NothingIsSkipped | daemon/src/filesys/DFileMaster.cpp:279-282 | what has been carried out and what is left are together the commands of the master, in order |
| Commands.SendingEnds | daemon/src/filesys/DFileMaster.cpp:129-161 | all sending ends within a bound: a former master waits for ever after its first command |
| Commands.LeaderBlocks | daemon/src/filesys/DFile.cpp:396-410 | once a member that the master needs is silent, the master ends up waiting for ever |
| IndexQueues.QueueExactly | daemon/src/filesys/DFileMaster.cpp:268-283 | replicating file by file in name order commands something if and only if a file lacks replicas and none before it has too many |
| IndexQueues.CanInvolve | daemon/src/filesys/DFileMaster.cpp:230-246 | for a file that lacks replicas every member left can be drawn, as the source if it has the file and as a target otherwise |
| FailureRounds.FailureRestoredExactly | daemon/src/filesys/DFileMaster.cpp:361-371 | a failure is repaired for all draws and all orders of sending if and only if the master has too many replicas of no file and, unless it lacks none, no former master commands anything |
| FailureRounds.RestoredStore | daemon/src/filesys/DFileMaster.cpp:361-371 | when the commands of the master, built from its outcomes, have been carried out, the store is that of the failure step |
| FailureRounds.QuietSuffices | daemon/src/filesys/DFileMaster.cpp:361-371 | a failure that is quiet at former masters meets that condition |
| MasterCode.SampleExactly | daemon/src/filesys/DFileMaster.cpp:233-241 | the sampling ends exactly if enough different members without the file are drawn, with exactly as many as wanted |
| MasterCode.SourceExactly | daemon/src/filesys/DFileMaster.cpp:243-246 | a source is found exactly if a holder is drawn |
| MasterCode.ReplicateIsAChoice | daemon/src/filesys/DFileMaster.cpp:217-250 | whatever is drawn, a command is sent to a holder and names targets the store model allows; with too many replicas the loop is endless |
| MasterCode.FairDrawsSuffice | daemon/src/filesys/DFileMaster.cpp:233-250 | draws that bring up enough members and then a holder end in a command |
| MasterCode.ChoiceCanBeDrawn | daemon/src/filesys/DFileMaster.cpp:233-250 | every choice of targets that the store model allows, with every source, is drawn by some numbers |
| MasterCode.OutcomesArePlanned | daemon/src/filesys/DFileMaster.cpp:268-283 | when all sampling has ended, the commands are a plan of the store model |
| MasterCode.FailureIsQuietExactly | daemon/src/filesys/DFileMaster.cpp:361-371 | a failure makes no former master command anything, whatever is drawn, if and only if every file that one of them still lists has as many listed holders left as it should have |
| MasterCode.DFileMaster.CountReplicates | daemon/src/filesys/DFileMaster.cpp:76-91 | the number of members that hold the file according to the index |
| MasterCode.DFileMaster.HasFile | daemon/src/filesys/DFileMaster.cpp:100-107 | membership in the index |
| MasterCode.DFileMaster.AddToFileMap | daemon/src/filesys/DFileMaster.cpp:109-114 | adds one holder, once |
| MasterCode.DFileMaster.UpdateFileMap | daemon/src/filesys/DFileMaster.cpp:93-98 | replaces one member's entries |
| MasterCode.DFileMaster.DeleteFromFileMap | daemon/src/filesys/DFileMaster.cpp:116-127 | removes one holder of one file |
| MasterCode.DFileMaster.DeleteFile | daemon/src/filesys/DFileMaster.cpp:254-266 | commands exactly the members that hold the file and forgets them |
| MasterCode.DFileMaster.PickTargets | daemon/src/filesys/DFileMaster.cpp:233-241 | the nested loops compute the sampling |
| MasterCode.DFileMaster.PickSource | daemon/src/filesys/DFileMaster.cpp:243-246 | the loop finds the first holder drawn |
| MasterCode.DFileMaster.ReplicateFile | daemon/src/filesys/DFileMaster.cpp:217-250 | computes the command for the file, including the unsigned conversion |
| MasterCode.DFileMaster.ReReplicate | daemon/src/filesys/DFileMaster.cpp:268-283 | replicates exactly the files that some member holds, as the store model does with these commands as the plan |
| MasterCode.DFileMaster.ListAll | daemon/src/filesys/DFileMaster.cpp:67-70 | every member's entry becomes what the member says |
| MasterCode.DFileMaster.Start | daemon/src/filesys/DFileMaster.cpp:62-74 | lists all members and replicates; with no entry of a departed member left this is the step of the store model after the listing of a takeover or join |
| MasterCode.DFileMaster.HandleFail | daemon/src/filesys/DFileMaster.cpp:361-371 | forgets the member and replicates the rest; on the index of the store this is the failure step of the model |
| MasterCode.DFileMaster.HandlePut | daemon/src/message/DFileMessageHandler.cpp:78-97 | approves exactly if nobody holds the file, enters the sender and replicates; on the index of the store this is the PUT step of the model |
| MasterCode.DFileMaster.HandleDelete | daemon/src/message/DFileMessageHandler.cpp:122-137 | reports the number of replicas and deletes them |
| MasterCode.DFile.CheckFileAvailable | daemon/src/filesys/DFile.cpp:93-100 | the name is free |
| MasterCode.DFile.AddToLocalFileMap | daemon/src/filesys/DFile.cpp:55-62 | adds a free name; names stay unique |
| MasterCode.DFile.DeleteLocalFile | daemon/src/filesys/DFile.cpp:80-91 | removes the name and nothing else |
| Topology.GroupingReadsBack | crane-core/src/topology/Topology.cpp:40-59 | the groupings that the workers know survive rendering and parsing |
| Topology.GroupingNames | crane-core/src/topology/Topology.cpp:40-59 | the names of the four groupings |
| Topology.EdgesToConcat | crane-core/src/topology/Topology.cpp:180-196 | parents are listed in the order of the edges |
| Topology.ParentsFromConcat | crane-core/src/topology/Topology.cpp:175-197 | and in the order in which the nodes are walked over |
| Topology.Visit | crane-core/src/topology/Topology.cpp:180-196 | an edge creates the bolt or extends its parents list by one entry |
| Topology.Expand | crane-core/src/topology/Topology.cpp:180-197 | all edges of a node |
| Topology.Walk | crane-core/src/topology/Topology.cpp:157-198 | the walk ends on every graph, cycles included, with complete parents lists and in an order of discovery |
| Builder.TopologyBuilder.SetNode | crane-core/src/topology/Topology.cpp:133-145 | a taken id is refused and changes nothing |
| Builder.TopologyBuilder.SetBolt | crane-core/src/topology/Topology.cpp:129-131 | declares a node that is no spout |
| Builder.TopologyBuilder.SetParent | crane-core/src/topology/Topology.cpp:34-38 | appends one edge to the parent, changes nothing else of it and touches no other node |
| Builder.TopologyBuilder.SetSpout | crane-core/src/topology/Topology.cpp:123-127 | declares a node of level 1 and makes it the last child of the root; other nodes stay |
| Builder.TopologyBuilder.BuildTopology | crane-core/src/topology/Topology.cpp:157-205 | one spout per child of the root, one bolt per node found, in name order, each with its complete parents list |
| TopologyTheorems.BoltsAreTheReachable | crane-core/src/topology/Topology.cpp:175-198 | there is a bolt for exactly the nodes reachable from a spout |
| TopologyTheorems.ParentsCounted | crane-core/src/topology/Topology.cpp:180-196 | an edge is listed as often as its parent is walked over |
| TopologyTheorems.WalkedOften | crane-core/src/topology/Topology.cpp:164-198 | a node is walked over once if it is a bolt and once more per declaration as a spout |
| TopologyTheorems.ParentsAreTheEdges | crane-core/src/topology/Topology.cpp:157-205 | the parents lists are exactly the edges if and only if no node is both a spout and reachable, or a spout twice |
| Wire.SpecRoundTrip | crane-core/src/topology/TopologySpec.cpp:32-57 | encoding and parsing give the specification back, parallel level p arriving as max(3, p) |
| Wire.MessageSays | client/src/CraneClient.cpp:76-102 | the message carries every field under its own name, and a parallel level only if it is above three |
| Wire.AbsentIsDefault | crane-core/src/topology/TopologySpec.cpp:45-55 | an absent parallel level is read as three, an absent acker flag as set |
| Wire.Encode | client/src/CraneClient.cpp:72-102 | the loops of the client compute the encoding |
| Wire.ParseFromRequest | crane-core/src/topology/TopologySpec.cpp:32-57 | the loops of the server compute the parsing |
| Wire.InvertParents | daemon/src/nimbus/Nimbus.cpp:259-268 | the loops of the master compute the children lists |
| Wire.InversionKeepsEdges | daemon/src/nimbus/Nimbus.cpp:259-268 | inverting keeps every edge, as often as it was there |
| Wire.ChildrenFromConcat | daemon/src/nimbus/Nimbus.cpp:259-268 | children are listed in the order of the bolts |
| Wire.ChildEntriesConcat | daemon/src/nimbus/Nimbus.cpp:259-268 | and in the order of the parents that a bolt lists |
| Wire.DeclaredAre | crane-core/src/topology/Topology.cpp:34-38 | the declared children, one by one, with the names of their groupings |
| Wire.TreeIsTheDeclaredGraph | daemon/src/nimbus/Nimbus.cpp:259-268 | from declaration to the master's tree every edge arrives exactly as often as its parent was walked over |
| Wire.ChildrenRoundTrip | daemon/src/nimbus/Nimbus.cpp:259-268 | children lists with their groupings arrive as declared when nodes are walked over once, and not at all when unreachable |
| Placement.NextPosition | daemon/src/nimbus/Nimbus.cpp:44-54 | the executor chosen is a supervisor, also when the last one has left |
| Placement.NextPositionIs | daemon/src/nimbus/Nimbus.cpp:44-54 | the first call takes the first supervisor, any later one the next, round to the first |
| Placement.NextAfterLeaver | daemon/src/nimbus/Nimbus.cpp:48-51 | after one that has left the second is taken, if there are two |
| Placement.PositionIs | daemon/src/nimbus/Nimbus.cpp:44-54 | the k-th call goes k positions further, after whole rounds |
| Placement.LoadsDifferByOne | daemon/src/nimbus/Nimbus.cpp:44-54 | after any number of calls two supervisors have been served equally often up to one |
| Placement.TasksCounted | daemon/src/nimbus/Nimbus.cpp:188-203 | a name is placed once per spout and paraLevel times per bolt |
| Placement.SpoutsFirst | daemon/src/nimbus/Nimbus.cpp:188-193 | the spouts are placed first, one instance each, in their order |
| Placement.BoltTasksConcat | daemon/src/nimbus/Nimbus.cpp:195-203 | then the bolts in their order, all instances of one after all of the one before |
| Placement.AssignedRoundRobin | daemon/src/nimbus/Nimbus.cpp:188-203 | a supervisor gets as many instances of a name as there are places in the list with that name that its calls serve |
| Placement.AllTasksAreAssigned | daemon/src/nimbus/Nimbus.cpp:188-203 | every task is assigned to exactly one supervisor |
| NimbusCode.PlacementIsBalanced | daemon/src/nimbus/Nimbus.cpp:184-203 | instances of one topology are spread evenly up to one, for any remembered executor |
| NimbusCode.AddressesDiffer | daemon/src/message/CraneMessageHandler.cpp:198-203 | different hosts or ports have different addresses |
| NimbusCode.FirstAddresses | daemon/src/supervisor/Supervisor.cpp:226-275 | the first two instances at a host have its ports 3000 and 3001 |
| NimbusCode.Supervisor.NextAvailableWorkerPort | daemon/src/supervisor/Supervisor.cpp:226-230 | ports count up and are not reused |
| NimbusCode.Supervisor.AddWorker | daemon/src/supervisor/Supervisor.cpp:67-119 | fresh consecutive ports, reported in the order of the instances that are appended |
| NimbusCode.Relay | daemon/src/message/WorkerMessageHandler.cpp:43-59 | the groups pass a hop unchanged, in order |
| NimbusCode.Reconnect | daemon/src/worker/Worker.cpp:384-411 | a worker process drops its connections and connects to exactly the new groups, in order |
| NimbusCode.Supervisor.ConfigureConnections | daemon/src/supervisor/Supervisor.cpp:176-192 | every worker process of one worker id ends with the connections asked for, and no other changes |
| NimbusCode.Supervisor.KillWorker | daemon/src/supervisor/Supervisor.cpp:212-224 | forgets one worker id |
| NimbusCode.PopRun | daemon/src/nimbus/Nimbus.cpp:216-223 | equal names come off the priority queue together, all of them |
| NimbusCode.GroupRuns | daemon/src/nimbus/Nimbus.cpp:214-250 | exactly one request per name, for all instances placed there, the largest name first |
| NimbusCode.RecordingKeepsDifferent | daemon/src/message/CraneMessageHandler.cpp:191-205 | recording a reply keeps all recorded addresses different, across names, topologies and calls |
| NimbusCode.Nimbus.UpdateSupervisors | daemon/src/nimbus/Nimbus.cpp:31-42 | all members but the master, once each, in the order of the membership list |
| NimbusCode.OthersConcat | daemon/src/nimbus/Nimbus.cpp:31-42 | the order of the list is kept |
| NimbusCode.Nimbus.NextExecutor | daemon/src/nimbus/Nimbus.cpp:44-54 | moves to the next position |
| NimbusCode.Nimbus.Assign | daemon/src/nimbus/Nimbus.cpp:187-203 | the loops place the tasks round robin |
| NimbusCode.Nimbus.Distribute | daemon/src/nimbus/Nimbus.cpp:179-203 | the instances are placed round robin over the members besides the master |
| NimbusCode.Nimbus.PrepareTopology | daemon/src/nimbus/Nimbus.cpp:177-252 | one request per supervisor and name; as many new instances per name as specified; of every name each supervisor has as many new addresses as it has been assigned, with its next ports, and nobody else has any; other topologies untouched, all addresses different |
| NimbusCode.Nimbus.StopTopology | daemon/src/nimbus/Nimbus.cpp:441-442 | forgets one topology's instances |
| Connections.ConnectionConfig | daemon/src/nimbus/Nimbus.cpp:271-296 | one entry per parent, with each child's instances in the recorded order |
| Connections.HandleConfig | daemon/src/message/CraneMessageHandler.cpp:245-267 | the loop applies the entries of the message, one after the other, to all workers |
| Connections.ListedWorkersAreConfigured | daemon/src/message/CraneMessageHandler.cpp:245-267 | afterwards every worker of a listed name has exactly the listed groups, and no worker has come or gone |
| Connections.SendersAgree | daemon/src/worker/Worker.cpp:384-411 | when the message has been handled, all worker processes of a name, under all supervisors and whatever they were connected to, have the groups of the tree's children and send a key to the same recorded instance |
| Connections.NoEmptyConnection | daemon/src/nimbus/Nimbus.cpp:259-296 | every child in the tree has at least three recorded instances, so no list of connections is empty |
| Connections.AddedComeLast | daemon/src/supervisor/Supervisor.cpp:67-119 | new workers of a name come last, with the ports handed out and no connections |
| Connections.ConfiguredKeepPorts | daemon/src/supervisor/Supervisor.cpp:176-192 | a configuration replaces the connections of the workers of a name and keeps their number and ports |
| Connections.KillReachesOthersExactly | daemon/src/supervisor/Supervisor.cpp:212-224 | killing a worker of one topology leaves those of another alone, in all states, if and only if the concatenated names differ |
| Connections.AddReachesOthersExactly | daemon/src/supervisor/Supervisor.cpp:67-119 | so does adding workers, unless none are added |
| Connections.ConfigReachesOthersExactly | daemon/src/message/CraneMessageHandler.cpp:245-267 | handling a configuration leaves the workers of another topology alone, in all states, if and only if no entry has the same concatenation |
| Connections.TopologiesCollide | daemon/src/supervisor/Supervisor.cpp:256-265 | killing "c" of "ab" kills "bc" of "a": both have the worker id "ipc:///tmp/abc" |

## Left out

- ZeroMQ, protocol buffers, thread creation, `dlopen`, `fork`, `execv`, port probing: messages are datatypes, threads are steps, an address is handed out without being bound.
- Spout process loop and `nextTuple`: reading a line is one step that puts it into the spout's output queue; end of input is the absence of further steps.
- PrinterBolt timing and its file: a printer keeps the list of tuples it has printed.
- WorkerProcess.ChildWorker.DataSend: handles one connection group, where the code loops over all groups of the worker, because the pipeline has one per worker.
- Membership.DMember.UpdateMembers: does not model the mark that a stopped node puts on its own record, because nodes do not leave here.
- Workers with several connection groups or with shuffle grouping below the first tier: the pipeline has one group per worker, as the word-count topology has.
- The copies that `createTupleBatchMessage` and the receive thread make between tuples and messages: a batch is a value.
- Election requests that time out, and membership changes during an election: the membership is fixed and every request is answered.
- The three-second pause, the retry while the membership list is empty, and the commented-out timeout of the election.
- Graceful leave in the theorems about whole runs: what one round does with a member that leaves is proved (`Gossip.LeaverIsPassedOnOnce`), the runs are of members that do not leave.
- The run name that a request to start workers carries.
- Restart under the same id, introducer ping sweep and join time.
- The decision when a heartbeat makes a node rebuild its subscriptions (daemon/src/message/MessageHandler.cpp:54-65): only what is then built is modelled.
- Truncation of times and counters to `int`, and clock differences between machines: all members read one clock.
- Received records in the membership queue are values; the table's own records are objects that are updated in place.
- GET requests and copies to a path outside the store: they do not change the index.
- File names stand for files: sizes, checksums, and a transfer that ends without the whole file are not part of the replication model.
- `operator[]` of the master's map inserting empty entries, which nothing observes.
- MasterCode.DFileMaster.ReplicateFile: rand() is a finite list of draws, so a loop that goes on for ever shows as one still sampling when the draws end.
- Topology nodes are values in a map that the builder's methods reassign, not objects that refer to each other.
- Compiling, starting and showing topologies, and restarting all of them after a failure.
- Wire.SpecRoundTrip: the number of nodes of a specification is not sent by the client, so it arrives as its default.
- NimbusCode.Nimbus.PrepareTopology: the supervisors' port counters are kept in one map beside the master; each counter behaves as the class Supervisor is proved to.
- Message parsers, command loops and logging: one branch per tag, or output only.
- Replication.Finished: a second fetch of a member that is fetching already, and its second report, are
  merged with the first; this matters in disorderly runs only.
- What a store does for the rest of a run after a refused command: `Commands` covers the commands of
  one failure, started with every member answering.
- A displaced master that becomes master again has two service threads on one socket.
- The copies of the replication helpers in DFile.cpp that nothing calls.
