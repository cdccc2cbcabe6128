# Verified models of the scheduling toolkit

This project models four parts of the repository and proves what they are for.

**The offline multicore list scheduler of `Analyzer/`.** Nodes subscribe to and publish topics. The
constructor of the node graph matches topics and links publishers as children of subscribers, through
one `child` and one `next` pointer per node. A depth-first search gives every node its inverse laxity,
the longest path from the root. Nodes are sorted by it and placed one by one on per-core timelines:
into the earliest idle gap that fits, or behind the last slot; a node that needs several cores is
placed on all of them at one time, found by searching, failing and retrying. The end-to-end results are
`GraphShape.SubscriberRunsLater`, `GraphShape.RunPrecedence`, `GraphShape.RunMakespan`,
`SchedAnalyzer.Analyzer.Run` and `Layout.RunDetermined`: the queue determines the whole schedule.

**The two-level GPU command ring of `nvrm_fifo.h`.** A ring of words feeds a ring of packed (address,
length) entries, which a device consumes at its own pace. The result is that under every interleaving
the device has read a prefix of the words written (`CommandRing.ReadsThePrefix`), and that the driver's
own code keeps this while its wait loops end (`NvrmFifo.Fifo.OutRing`).

**The active queues of the RESCH scheduler core.** Bitmap, per-priority queues, counter and task fields
agree after every operation of the fixed-priority and the deadline class, in any order
(`TaskSteps.StepKeeps`, `TaskSteps.After`), `StepQueues.QueueAfter` says what each operation does to every
queue and `StepQueues.FieldsAfter` what to every field, `Reservation` says what a run does to one task's priority,
and the four lookups that walk the bitmap enumerate the active tasks in order (`TaskLookup.*`).

**Two small allocators and arbiters.** The handle chain of `nvrm_submthd.c` and the first-in-first-out
arbiter of virtual GPUs over its intrusive circular list.

Code that updates state in place is modelled by classes and loops; each method is proved against a
function or predicate on values, about which the theorems are then stated. `Analyzer/` models are
`Timeline`, `ListScheduling`, `CoreSearch`, `Layout`, `SchedAnalyzer`, `SortKeys`, `NodeLinks`, `GraphBuild`,
`TopicWiring`, `TopicShapes`, `SharedTopics`, `LayeredTopics`, `LeafSearch`, `GraphShape`, `PlanExistence`,
`GraphRuns` and `NodeGraph`; the ring is `CommandRing` and `NvrmFifo`; the scheduler core is `Bitops`,
`ActiveQueue`, `TaskSteps`, `Reservation`, `TaskLookup`, `StepQueues` and `ReschCore`; the rest is `HandleChain`,
`GdevList`, `WaitQueue`, `Arbiter` and `VirtualGpu`. `Sequences`, `Sets` and `Options` are shared helpers.
`dafny verify dfyconfig.toml` checks all of it.

What turned out not to hold, and what was proved instead:

* `insert_child_node` closes a cycle exactly when the new child already reaches the node whose null
  pointer is filled (`GraphBuild.InsertAcyclicIff`). The graph is therefore modelled for inputs whose
  insertions close no cycle (`TopicWiring.Buildable`). Read off the topic lists, two things are demanded of
  all of them. There are levels with every publisher below its subscribers, so no node hears itself, directly
  or by way of any number of others (`TopicShapes.BuildableLevels`). And the matches, as edges between
  subscribers and publishers, make up a forest (`TopicShapes.BuildableForest`), so these are refused: a pair
  that shares two topics, two subscribers that share two publishers, three that share publishers pairwise, and
  any longer such ring (`TopicShapes.SharingLoop`). The order of the list matters as well: a subscriber to
  two nodes the later of which hears the earlier is refused (`TopicShapes.TriangleLoop`).
* Two classes of topics are decided exactly. If a publisher with several subscribers is the last one of each
  of them, the topics are accepted if and only if they have levels and no pair shares two topics
  (`SharedTopics.SharedBuildableIff`). If the publishers of each subscriber are on one level, they are
  accepted if and only if the matches make up a forest (`LayeredTopics.LayeredBuildableIff`).
* An accepted graph gives no node a child it does not subscribe to if and only if a publisher with several
  subscribers is the last one of each of them (`SharedTopics.NoStraysIff`); four nodes show such a child
  (`LayeredTopics.StrayedChild`).
* A node respects its children in every run if and only if it has at most 15
  (`GraphRuns.PrecedenceIff`); with more it starts at time 0 once there is a core for every copy of it and
  of the nodes before it. One subscriber to any number of publishers shows where the line is
  (`GraphRuns.StarIff`): with 15 it comes last in every run, with 16 there is a run in which it does not
  (`GraphRuns.FifteenChildren`, `GraphRuns.SixteenChildren`).
* A child sorts before its parent exactly when the longest path to it is longer; a child whose run time is
  zero can come behind (`GraphShape.ChildBeforeIff`, `GraphRuns.InstantChild`).
* `resch_fns` shifts by the full word width when its offset is a positive multiple of 64, which C leaves
  undefined. The machine's value is a parameter here; the search is right exactly when that value lets no
  bit of the word before through, and otherwise finds the lowest bit let through (`Bitops.FindNextSet`). On
  a machine that shifts by 64 as by 0, the step behind the last task of priority 35 goes wrong every time
  (`TaskLookup.WrapsOnOnes`). What the two lookups that search from there find is known in every case
  (`TaskLookup.NextPrioTask`, `TaskLookup.NumberTask`).
* A fixed-priority task that used its reserve up is to come back from the background when the reserve is
  refilled. Whatever happens in between, short of another change of its priority, the refill asks for the
  priority it had if and only if that one was saved and neither the job nor the reserve ended
  (`Reservation.RefillIff`). Both can fail. The priority is saved when charging starts or the task is
  migrated, and stays the present one exactly until another is granted (`Reservation.SavedIff`); then the refill asks
  for the one before (`Reservation.GrantForgets`), and so does a task that goes to sleep
  (`Reservation.SleepPutsBack`). And a job that completes in the background is dequeued before its refill, and
  the next one saves the background priority over the old (`Reservation.CompletionForgets`).

## Model

| member | source | states |
|---|---|---|
| GraphShape.RunPrecedence | Analyzer/src/sched_analyzer.cpp:41-246 | After a whole run, a node starts no earlier than any node of its child chain ends, when the chain has fewer than 16 nodes |
| GraphRuns.PrecedenceIff | Analyzer/src/node_graph_core.cpp:416-426 | A node starts after every node of its chain in every run, on any number of cores, if and only if the chain has fewer than 16 nodes |
| GraphRuns.UnseenStartsAtOnce | Analyzer/src/node_graph.cpp:211-223 | A node whose chain is not reported starts at time 0, before anything ends, when the cores suffice for its copies and those of the nodes queued before it |
| GraphRuns.Violation | Analyzer/src/node_graph_core.cpp:416-426 | For every node with too long a chain there is a run in which it starts before a child ends |
| GraphRuns.SixteenChildren | Analyzer/src/node_graph_core.cpp:416-426 | Topics with one subscriber and 16 publishers, their graph, and a run on it that breaks precedence |
| GraphRuns.StarIff | Analyzer/src/node_graph.cpp:211-223 | One subscriber to any number of publishers respects them in every run if and only if there are at most 15 |
| GraphRuns.FifteenChildren | Analyzer/src/node_graph.cpp:211-223 | Topics with one subscriber and 15 publishers, their graph and queue, and that in every run on any number of cores the subscriber starts after all 15 have ended |
| GraphRuns.InstantChild | Analyzer/include/node_graph.h:58-61 | Two nodes, the child without run time, and a queue with the child behind its parent |
| GraphRuns.GraphExists | Analyzer/src/node_graph.cpp:136-173 | Topics on which no insertion closes a cycle have a connected acyclic graph that links all publishers |
| GraphRuns.RunExists | Analyzer/src/sched_analyzer.cpp:41-246 | On enough cores every prepared graph has a run |
| PlanExistence.GreedyExists | Analyzer/src/sched_analyzer.cpp:51-240 | Every queue whose jobs fit the cores has a greedy plan |
| PlanExistence.StartsAtOnce | Analyzer/src/sched_analyzer.cpp:51-240 | A job that waits for no child starts at 0 when the cores suffice for all copies up to it |
| GraphShape.RunMakespan | Analyzer/src/sched_analyzer.cpp:277-285 | The makespan is at most the sum of run times (below INT_MAX), cores times makespan covers every copy of every node, and, when every chain has fewer than 16 nodes, it is at least every node's longest path |
| GraphShape.SubscriberRunsLater | Analyzer/src/node_graph.cpp:146-160 | After a whole run, a subscriber with fewer than 16 nodes in its chain starts after every publisher of a topic it subscribes to has ended |
| GraphShape.LoadFits | Analyzer/src/node_graph_core.cpp:252-266 | On no walk of the laxity search does the accumulator, with the node's run time added, exceed the sum of all run times |
| GraphShape.LaxityFits | Analyzer/src/node_graph_core.cpp:252-266 | No laxity exceeds the sum of all run times |
| GraphShape.LaxityPutsChildrenFirst | Analyzer/include/node_graph.h:58-61 | With positive run times every reported child comes before its parent in the sorted queue |
| GraphShape.ChildBeforeIff | Analyzer/include/node_graph.h:58-61 | A child sorts before its parent exactly when the longest path to it is longer than its parent's, which a positive run time ensures |
| GraphShape.LaxityComputes | Analyzer/src/node_graph_core.cpp:247-266 | The search from the root leaves longest paths, and a second one changes nothing |
| GraphShape.LaxityIsWitnessed | Analyzer/src/node_graph_core.cpp:252-266 | When every chain has fewer than 16 nodes and run times are positive, each node's longest path comes from a reported parent or is its own run time |
| GraphShape.LeavesAreChildless | Analyzer/src/node_graph_core.cpp:166-217 | The leaf search from the root finds exactly the childless nodes, each once |
| ListScheduling.Precedence | Analyzer/src/sched_analyzer.cpp:332-350 | If children precede parents in the queue, a greedy plan starts no job before its children end |
| ListScheduling.Exclusive | Analyzer/src/sched_analyzer.cpp:51-240 | No two jobs of a greedy plan overlap on a core they share |
| ListScheduling.MakespanAtMostTotal | Analyzer/src/sched_analyzer.cpp:277-285 | The makespan of a greedy plan never exceeds the sum of its run times |
| ListScheduling.CriticalPath | Analyzer/src/sched_analyzer.cpp:51-240 | Every job ends no earlier than the longest path to it |
| ListScheduling.AreaBound | Analyzer/src/sched_analyzer.cpp:51-240 | The run times times cores used fit into cores times makespan, by counting disjoint unit cells |
| ListScheduling.LeastStartByMakespan | Analyzer/src/sched_analyzer.cpp:67-147 | The earliest start of a job is no later than the makespan so far, so a search for it ends |
| ListScheduling.ReadyIsLargest | Analyzer/src/sched_analyzer.cpp:332-350 | The time a job becomes ready is the latest end of its children placed so far, or zero |
| ListScheduling.MakespanIsLargest | Analyzer/src/sched_analyzer.cpp:277-285 | The makespan is the largest end of any placement |
| ListScheduling.TotalPermuted | Analyzer/src/node_graph.cpp:244-271 | The queue has the same total run time as the nodes |
| Timeline.FreeIff | Analyzer/src/sched_analyzer.cpp:441-475 | A stretch of a tiled timeline is free exactly when it lies in one empty slot or after the tail |
| Timeline.SpliceKeeps | Analyzer/src/sched_analyzer.cpp:636-672 | Splicing a job into a gap keeps the timeline tiled, with maximal gaps and a busy last slot, and keeps its length |
| Timeline.SpliceBusy | Analyzer/src/sched_analyzer.cpp:636-672 | Splicing adds exactly one busy slot and changes no other |
| Timeline.AppendKeeps | Analyzer/src/sched_analyzer.cpp:173-198 | Appending, with an idle slot in between if needed, keeps the timeline tiled and ends it with the new slot |
| Timeline.AppendBusy | Analyzer/src/sched_analyzer.cpp:219-238 | Appending adds exactly one busy slot and changes no other |
| CoreSearch.NothingEarlier | Analyzer/src/sched_analyzer.cpp:352-492 | Neither a gap nor a tail of the usable cores allows an earlier start than the better of the two searches |
| CoreSearch.GapHolds | Analyzer/src/sched_analyzer.cpp:423-492 | The chosen gap is on a usable core and holds the job at the chosen start |
| CoreSearch.TailFree | Analyzer/src/sched_analyzer.cpp:352-397 | The chosen core is free from the chosen start on |
| CoreSearch.GapIff | Analyzer/src/sched_analyzer.cpp:204-239 | The choice is a gap if and only if some gap that fits starts no later than the best tail |
| CoreSearch.ChosenUnique | Analyzer/src/sched_analyzer.cpp:352-492 | The search has one result: core, slot and start of the choice are determined by the timelines |
| CoreSearch.ChosenAtStart | Analyzer/src/sched_analyzer.cpp:149-200 | The choice made with the common start as minimum is the one made with any earlier minimum that leads to that start |
| Layout.RunDetermined | Analyzer/src/sched_analyzer.cpp:51-240 | Two runs over the same queue, reported children and number of cores end with the same plan and the same timeline on every core, slot for slot |
| SchedAnalyzer.GetCanUseCore | Analyzer/src/sched_analyzer.cpp:248-262 | The cores not used yet, each once, in increasing order |
| SchedAnalyzer.LatestTail | Analyzer/src/sched_analyzer.cpp:364-374 | Among tails no later than the minimum start, the latest |
| SchedAnalyzer.EarliestTail | Analyzer/src/sched_analyzer.cpp:380-394 | When all tails are later, the earliest |
| SchedAnalyzer.GetSchedNodeInfo | Analyzer/src/sched_analyzer.cpp:493-556 | The best tail over the selected cores, and whether an idle slot must be put in front |
| SchedAnalyzer.BestVacancy | Analyzer/src/sched_analyzer.cpp:575-617 | Over all empty slots of the selected cores that fit, the first with the least finish, then the least remainder |
| SchedAnalyzer.GetSchedVacancyNodeInfo | Analyzer/src/sched_analyzer.cpp:557-634 | The best gap with its two flags, or the fact that none fits |
| SchedAnalyzer.FindStart | Analyzer/src/sched_analyzer.cpp:204-239 | The start chosen is the least at which some selected core is free for the whole run time; a gap is chosen if and only if one that fits starts no later than the best tail, and then the best gap, otherwise the best tail |
| SchedAnalyzer.SearchRound | Analyzer/src/sched_analyzer.cpp:67-147 | One round of the gang search succeeds at the least common start or moves the minimum start strictly up without skipping a feasible time |
| SchedAnalyzer.GangStart | Analyzer/src/sched_analyzer.cpp:67-147 | The retry loop ends, with the least time at which enough cores are free together |
| SchedAnalyzer.SameStart | Analyzer/src/sched_analyzer.cpp:149-200 | While the copies are being placed, the search on the remaining cores still yields that same time |
| SchedAnalyzer.MinStartIsReady | Analyzer/src/sched_analyzer.cpp:332-350 | The minimum start read off the timelines is the time the plan says the job is ready |
| SchedAnalyzer.FreeOnIsFreeCores | Analyzer/src/sched_analyzer.cpp:441-475 | The cores whose timelines have room are those free in the plan |
| SchedAnalyzer.TailsByMakespan | Analyzer/src/sched_analyzer.cpp:277-285 | The largest tail is the makespan of the plan |
| SchedAnalyzer.RepresentsNext | Analyzer/src/sched_analyzer.cpp:51-240 | Placing a job on distinct cores at one start turns timelines of a plan into timelines of the plan with that job, and of nothing else |
| SchedAnalyzer.PlanBusyMember | Analyzer/src/sched_analyzer.cpp:51-240 | Every busy slot of a core is the copy of one placed job |
| SchedAnalyzer.Analyzer.SetSchedVacancyNode | Analyzer/src/sched_analyzer.cpp:636-672 | The rebuilt timeline of the core is the splice, and 1 is returned; bad arguments change nothing and return -1 |
| SchedAnalyzer.Analyzer.PushNode | Analyzer/src/sched_analyzer.cpp:219-238 | The core's timeline is extended by an idle slot if needed and the job |
| SchedAnalyzer.Analyzer.PlaceCopies | Analyzer/src/sched_analyzer.cpp:149-200 | All copies are placed at one start on pairwise distinct cores that were free, each where the search on the cores left over chooses, and every timeline is what these choices make of it |
| SchedAnalyzer.Analyzer.Schedule | Analyzer/src/sched_analyzer.cpp:51-240 | One queue entry becomes one greedy step: ready time, least start, enough distinct free cores, and the timelines that the search's choices give |
| SchedAnalyzer.Analyzer.ComputeMakespan | Analyzer/src/sched_analyzer.cpp:277-285 | The field is the makespan of the plan |
| SchedAnalyzer.Analyzer.Run | Analyzer/src/sched_analyzer.cpp:41-246 | From a new graph: laxities are longest paths, the queue holds every node once in order, the timelines are the greedy plan's, and each job is on the cores and in the slots the search chooses |
| NodeLinks.SearchComputes | Analyzer/src/node_graph_core.cpp:252-266 | What relaxing along every pointer walk attains is the maximum over all walks from the root |
| NodeLinks.SearchCovers | Analyzer/src/node_graph_core.cpp:252-266 | No walk has a larger total than the value the search leaves |
| NodeLinks.SearchAttained | Analyzer/src/node_graph_core.cpp:252-266 | Every value the search raises is the total of some walk |
| NodeLinks.SearchAgain | Analyzer/src/node_graph_core.cpp:247-266 | Searching again changes no laxity |
| NodeLinks.ChildLaxity | Analyzer/src/node_graph_core.cpp:252-266 | A child's laxity is at least its parent's plus its own run time |
| NodeLinks.LaxityHandedDown | Analyzer/src/node_graph_core.cpp:252-266 | Every node has a parent, or the root, whose laxity plus its run time is its own |
| NodeLinks.ChainMembers | Analyzer/src/node_graph_core.cpp:411-423 | The nodes met along `next` from the first child are exactly those in the chain |
| GraphBuild.InsertAcyclicIff | Analyzer/src/node_graph_core.cpp:69-91 | An insertion keeps the structure acyclic exactly when the child does not reach the node whose pointer is filled |
| GraphBuild.InsertedInChain | Analyzer/src/node_graph_core.cpp:82-90 | The inserted child is in its parent's chain |
| GraphBuild.ChainKept | Analyzer/src/node_graph_core.cpp:82-90 | Insertions only extend chains |
| GraphBuild.RepeatedChildLoops | Analyzer/src/node_graph_core.cpp:84-90 | A child inserted under a parent that already has it closes a cycle |
| GraphBuild.AttachStep | Analyzer/src/node_graph.cpp:162-166 | Attaching a parentless node to the root closes no cycle and keeps what was attached |
| GraphBuild.RootReaches | Analyzer/src/node_graph.cpp:162-166 | Once every parentless node is attached, every node is reachable from the root |
| TopicWiring.BuildSound | Analyzer/src/node_graph.cpp:146-160 | The nested loops keep the structure acyclic and record a parent for every inserted node |
| TopicWiring.BuildChains | Analyzer/src/node_graph.cpp:146-160 | Every publisher ends in the chain of every subscriber to one of its topics |
| TopicShapes.ChildrenInOrder | Analyzer/src/node_graph.cpp:146-160 | In a subscriber's chain its publishers stand in the order of the node list |
| TopicWiring.RootsInOrder | Analyzer/src/node_graph.cpp:162-166 | In the root's chain the nodes without a recorded parent stand in the order of the node list |
| TopicShapes.TwoTopicsLoop | Analyzer/src/node_graph.cpp:146-160 | A pair of nodes matched by two topics makes the construction close a cycle |
| TopicShapes.TwoSharedLoop | Analyzer/src/node_graph.cpp:146-160 | So do two subscribers sharing two publishers |
| TopicShapes.ThreeSharedLoop | Analyzer/src/node_graph.cpp:146-160 | So do three subscribers sharing publishers pairwise |
| TopicShapes.SharingLoop | Analyzer/src/node_graph.cpp:146-160 | So does every match of two nodes that a trail of earlier matches, each with a node in common with the next, has joined already |
| TopicShapes.BuildableForest | Analyzer/src/node_graph.cpp:146-160 | If no insertion closes a cycle, no match joins what earlier ones have joined |
| TopicShapes.BuildableLevels | Analyzer/src/node_graph.cpp:146-160 | If no insertion closes a cycle, there are levels with every publisher below its subscribers |
| TopicShapes.TriangleLoop | Analyzer/src/node_graph.cpp:146-160 | So does a subscriber to two nodes the later of which hears the earlier, wherever the subscriber is in the list |
| TopicShapes.SelfLoop | Analyzer/src/node_graph.cpp:146-160 | So does a node that hears a topic of its own |
| SharedTopics.SharedBuildableIff | Analyzer/src/node_graph.cpp:146-160 | Where publishers with several subscribers are the last of each, no insertion closes a cycle if and only if there are levels and no pair is matched twice |
| LayeredTopics.LayeredBuildableIff | Analyzer/src/node_graph.cpp:146-160 | Where the publishers of each subscriber are on one level, no insertion closes a cycle if and only if the matches make up a forest |
| SharedTopics.NoStraysIff | Analyzer/src/node_graph_core.cpp:84-90 | Chains built without closing a cycle hold only nodes subscribed to if and only if publishers with several subscribers are the last of each |
| LayeredTopics.StrayedChild | Analyzer/src/node_graph_core.cpp:84-90 | Four nodes on which no insertion closes a cycle, and whose first has a child in its chain it does not subscribe to |
| SharedTopics.StrayChild | Analyzer/src/node_graph_core.cpp:84-90 | What one subscriber puts behind a shared publisher ends in the chain of every other subscriber to it |
| TopicWiring.AttachedConnects | Analyzer/src/node_graph.cpp:162-166 | After the second loop every node is reachable from the root and the structure is acyclic |
| TopicWiring.AttachConnects | Analyzer/src/node_graph.cpp:162-166 | The second loop closes no cycle; in the end the root's chain is exactly the nodes without a recorded parent, and no other pointer is new |
| LeafSearch.SearchSettles | Analyzer/src/node_graph_core.cpp:166-183 | Although a known leaf cuts its `next` chain off, every leaf below has been or is being found |
| LeafSearch.AllLeaves | Analyzer/src/node_graph_core.cpp:166-183 | The result is exactly the reachable childless nodes, without repetition |
| LeafSearch.ChildLeavesFirst | Analyzer/src/node_graph_core.cpp:166-183 | The leaves a node's child reaches are listed before anything found further along its chain, and a leaf not yet listed comes next |
| SortKeys.Sort | Analyzer/src/node_graph.cpp:253-253 | The keys come out in the order of the comparison, and are the same keys |
| SortKeys.KeysPermuted | Analyzer/src/node_graph.cpp:246-264 | After sorting, every node index occurs exactly once |
| NodeGraph.InsertChildNode | Analyzer/src/node_graph_core.cpp:69-91 | On the heap: the parent is recorded unless there are six already, one null pointer is filled, and the pointers are those of the value-level insertion |
| NodeGraph.WireTopics | Analyzer/src/node_graph.cpp:146-160 | The four loops leave the pointers and first parents that the value-level construction gives |
| NodeGraph.AttachToRoot | Analyzer/src/node_graph.cpp:162-166 | The loop leaves the pointers and first parents that the value-level loop gives |
| NodeGraph.NewGraph | Analyzer/src/node_graph.cpp:136-173 | For inputs that close no cycle: the new graph is acyclic, connected, and links every matched publisher |
| NodeGraph.ComputeLaxityFrom | Analyzer/src/node_graph_core.cpp:252-266 | The recursion ends and leaves the laxities of the value-level search, with the accumulator as it was |
| NodeGraph.SearchNode | Analyzer/src/node_graph_core.cpp:145-164 | The node with the given index is found exactly when it is reachable |
| NodeGraph.SearchLeafFrom | Analyzer/src/node_graph_core.cpp:166-183 | The array is filled with the leaves of the value-level search, in order, if and only if it has room for them |
| NodeGraph.CopyChain | Analyzer/src/node_graph_core.cpp:411-426 | The array gets the whole chain and a null, or the call fails because it does not fit |
| NodeGraph.GraphAnalyzer.SearchChildNodes | Analyzer/src/node_graph_core.cpp:394-427 | The children of the node with the given index, or failure |
| NodeGraph.GraphAnalyzer.SchedChildList | Analyzer/src/node_graph.cpp:211-223 | Copies of the reported children: the whole chain, in order, if it has at most 15 nodes, and failure without any if it has 16 or more |
| NodeGraph.GraphAnalyzer.ComputeLaxity | Analyzer/src/node_graph.cpp:183-185 | Laxities become longest paths; already computed ones stay |
| NodeGraph.GraphAnalyzer.SearchLeafNode | Analyzer/src/node_graph_core.cpp:199-217 | The array gets the leaves and a null behind them if and only if there are fewer than 16 |
| NodeGraph.GraphAnalyzer.SchedAllNodeQueue | Analyzer/src/node_graph.cpp:244-271 | The queue holds a copy of every node once; inverse laxities never rise along it, and where they are equal run times never rise |
| CommandRing.ReadsThePrefix | Measurer/RESCH/lib/nvrm/nvrm_fifo.h:11-46 | In every run of single accesses of both sides, the device has read a prefix of the words written, no more than was submitted, and is idle exactly when it has read all that was |
| CommandRing.StepKeeps | Measurer/RESCH/lib/nvrm/nvrm_fifo.h:105-122 | Each access of host or device keeps the invariant of both rings and both views |
| CommandRing.AllowedIff | Measurer/RESCH/lib/nvrm/nvrm_fifo.h:33-46 | The accesses of these runs are exactly those that the code's tests on its offsets let through; the device's steps and the polls are always among them |
| CommandRing.DeviceKeeps | Measurer/RESCH/lib/nvrm/nvrm_fifo.h:105-122 | The device's step reads the next word of the stream or fetches the next announced stretch |
| CommandRing.PutWordKeeps | Measurer/RESCH/lib/nvrm/nvrm_fifo.h:43-45 | Writing the next word overwrites no word still to be read |
| CommandRing.PutEntryWordKeeps | Measurer/RESCH/lib/nvrm/nvrm_fifo.h:115-116 | Filling the next entry disturbs no entry still to be fetched |
| CommandRing.AnnounceKeeps | Measurer/RESCH/lib/nvrm/nvrm_fifo.h:117-121 | Announcing a filled entry extends the submitted stream by its stretch |
| CommandRing.DeviceDrains | Measurer/RESCH/lib/nvrm/nvrm_fifo.h:11-31 | After as many device steps as there is work, everything submitted has been read, in order |
| CommandRing.IdleIsDrained | Measurer/RESCH/lib/nvrm/nvrm_fifo.h:105-122 | The device is idle exactly when it has read all submitted words |
| CommandRing.FullTest | Measurer/RESCH/lib/nvrm/nvrm_fifo.h:35-35 | The comparison of offsets modulo the buffer size holds exactly when one word is left |
| CommandRing.EntryFullTest | Measurer/RESCH/lib/nvrm/nvrm_fifo.h:108-108 | The same for the entry ring |
| CommandRing.Unpacked | Measurer/RESCH/lib/nvrm/nvrm_fifo.h:107-116 | Splitting a packed entry over two words and decoding it gives address and length back |
| CommandRing.PackedBits | Measurer/RESCH/lib/nvrm/nvrm_fifo.h:107-107 | With shifts and "or" on 64 bits this holds exactly for addresses below 2^40 and lengths below 2^24 |
| CommandRing.PackedWord | Measurer/RESCH/lib/nvrm/nvrm_fifo.h:107-107 | The packed entry is the bitwise or of the address and the length shifted up by 40, and fits 64 bits |
| CommandRing.OrBits | Measurer/RESCH/lib/nvrm/nvrm_fifo.h:107-107 | A bit of the bitwise or is set exactly if it is set in one of the two |
| CommandRing.EntryWords | Measurer/RESCH/lib/nvrm/nvrm_fifo.h:115-116 | Its lower word is the address modulo 2^32, its upper word the rest of the address plus 0x100 times the length |
| NvrmFifo.OffsetRecovered | Measurer/RESCH/lib/nvrm/nvrm_fifo.h:124-134 | The 32-bit difference recovers the offset whatever the upper register holds, so reading the two registers at different instants does no harm |
| NvrmFifo.Pending | Measurer/RESCH/lib/nvrm/nvrm_fifo.h:13-24 | What the two offsets say about how many words are pending, with and without wraparound |
| NvrmFifo.Fifo.constructor | Measurer/RESCH/lib/nvrm/nvrm_irqctx.c:120-141 | The initial offsets, sizes and registers satisfy the invariant; the buffer has 0x10000 words, the entry ring 1024 entries of two words |
| NvrmFifo.Fifo.OutRing | Measurer/RESCH/lib/nvrm/nvrm_fifo.h:33-46 | One word is appended to the stream, the invariant kept, and the wait loop ends because each turn moves the device or the view of it |
| NvrmFifo.Fifo.FireRing | Measurer/RESCH/lib/nvrm/nvrm_fifo.h:11-31 | All pending words are submitted, in order, by at most two entries, by one if they do not wrap, by none if there are none |
| NvrmFifo.Fifo.Push | Measurer/RESCH/lib/nvrm/nvrm_fifo.h:105-122 | After the wait for a free slot, which ends, the stretch is announced as one entry: the two words of its slot are the address modulo 2^32, and the rest of the address plus 0x100 times the length; no other word of the entry ring changes |
| NvrmFifo.Fifo.AwaitEntry | Measurer/RESCH/lib/nvrm/nvrm_fifo.h:108-114 | The wait loop ends, with a slot free and nothing written |
| NvrmFifo.Fifo.UpdateGet | Measurer/RESCH/lib/nvrm/nvrm_fifo.h:124-134 | The view of the device's position moves up to at least where it was at the call, never past it; equal offsets mean it did not move |
| Bitops.FindFirstSet | Scheduler/RESCH/core/bitops.h:20-29 | The lowest set bit, or -1 when there is none |
| Bitops.FindNextSet | Scheduler/RESCH/core/bitops.h:85-114 | The lowest set bit from the offset on exactly when the undefined shift lets nothing through, and otherwise the lowest bit it lets through |
| Bitops.FindPreviousSet | Scheduler/RESCH/core/bitops.h:159-188 | The highest set bit up to the offset; -1 for offsets out of range |
| Bitops.Masked | Scheduler/RESCH/core/bitops.h:101-104 | The two shifted masks keep exactly the bits from, and up to, a position |
| Bitops.BitSwitched | Scheduler/RESCH/core/sched_fp.c:34-54 | Setting or clearing a bit of the bitmap changes that bit only |
| Bitops.WrongNext | Scheduler/RESCH/core/bitops.h:98-104 | A bitmap for which the search from bit 64 goes wrong on a machine that shifts by 64 as by 0 |
| ActiveQueue.EnqueueKeeps | Scheduler/RESCH/core/sched_edf.c:33-58 | Enqueueing under either class keeps bitmap, counter, membership and deadline order |
| ActiveQueue.DequeueKeeps | Scheduler/RESCH/core/sched_edf.c:64-75 | So does dequeueing, which finds the task at its own priority on its own CPU |
| ActiveQueue.DeadlineSlot | Scheduler/RESCH/core/sched_edf.c:45-52 | The insertion point: nothing before it is due later, the task at it is |
| ActiveQueue.OrderJoined | Scheduler/RESCH/core/sched_edf.c:45-52 | Inserting there keeps every deadline-class task behind only tasks due no later, even with fixed-priority tasks in the queue |
| ActiveQueue.OnePlace | Scheduler/RESCH/core/sched_fp.c:28-54 | An active task is at exactly one place of all queues of all CPUs, an inactive one at none |
| TaskSteps.StepKeeps | Scheduler/RESCH/core/sched.c:163-184 | Job start and completion, suspension and resumption, release, accounting, change of policy and priority, migration, expiry and refill all keep the invariant, in both classes |
| TaskSteps.After | Scheduler/RESCH/core/sched.c:262-291 | So does every sequence of them |
| TaskSteps.EmptyIsReady | Scheduler/RESCH/core/sched.h:18-24 | Empty queues satisfy the invariant |
| TaskSteps.MovedKeeps | Scheduler/RESCH/core/sched_edf.c:209-260 | Leaving one queue and joining another keeps the invariant |
| TaskSteps.ChangedFirst | Scheduler/RESCH/core/sched.c:262-285 | Writing the new priority before the task changes queue comes to the same as writing it in between |
| TaskSteps.GoesBehindEarlier | Scheduler/RESCH/core/sched_edf.c:45-52 | Among deadline-class tasks the newcomer goes behind exactly those due no later, so ties stay in order of arrival |
| TaskSteps.SortedByDeadline | Scheduler/RESCH/core/sched_edf.c:33-58 | A deadline-class task has nothing due later in front of it; a queue of such tasks is sorted |
| StepQueues.QueueAfter | Scheduler/RESCH/core/sched.c:163-184 | Every operation leaves every queue of every CPU as it was but for its own task, which leaves and joins as the operation says: at the end under fixed priority, under the deadline class before the first task due later and behind all due no later |
| StepQueues.FedAfter | Scheduler/RESCH/core/sched_edf.c:33-58 | What an operation puts into a queue counts as put there by the deadline class exactly under that class; of other tasks this does not change |
| StepQueues.FieldsAfter | Scheduler/RESCH/core/sched_fp.c:79-130 | What an operation writes, field by field, with the priorities 2 and 3 of background and deadline class; fields of other tasks stay |
| StepQueues.PrioritiesServed | Scheduler/RESCH/core/sched_fp.c:28-37 | Fixed-priority jobs start and go on with the priorities 1 to 98 and no other, at the end of their queue; the kernel may grant exactly these |
| StepQueues.HigherFirst | Scheduler/RESCH/core/sched.c:636-705 | Of two active tasks of a CPU the one of the higher priority comes first in the enumeration |
| StepQueues.ExpiredGoesDown | Scheduler/RESCH/core/sched_fp.c:107-111 | A task that used its reserve up gets priority 2, which is no higher than it had unless it had 1, and comes behind every active task of its CPU above priority 2 |
| StepQueues.DeadlineBand | Scheduler/RESCH/include/resch-core.h:11-15 | A deadline-class task that starts or is refilled has priority 3: it comes behind all active tasks of priorities 4 to 98 and before those of 1 and 2 |
| Reservation.RefillIff | Scheduler/RESCH/core/sched_fp.c:113-130 | Over any run between expiry and refill that does not change the task's priority otherwise, the refill asks for the priority the task had at expiry if and only if that one was saved and neither the job nor the reserve ended in the run |
| Reservation.SavedIff | Scheduler/RESCH/core/sched_fp.c:79-95 | While time is charged and the task is neither migrated nor put to sleep with its saved priority granted, the saved priority is the present one if and only if the last priority granted since it was saved, if any, is the same |
| Reservation.GrantForgets | Scheduler/RESCH/core/sched.c:1355-1369 | After a task being charged was granted another priority and used its reserve up, the refill asks for the one before |
| Reservation.SleepPutsBack | Scheduler/RESCH/core/event.c:26-44 | A fixed-priority task that goes to sleep, if the kernel grants it, comes back at the end of the queue of its saved priority, whatever priority it had |
| Reservation.RefillRestores | Scheduler/RESCH/core/reservation.c:215-244 | If neither ended, granting the request puts the task at the end of the queue of its saved priority on its present CPU |
| Reservation.ExpireThenRestore | Scheduler/RESCH/core/sched_fp.c:107-130 | When nothing comes in between, the task ends at the end of the queue of its saved priority, and all queues are otherwise as before, but without it |
| Reservation.StepChanges | Scheduler/RESCH/core/sched.c:163-291 | Every operation changes the fields of its own task only, and how |
| Reservation.StartCharges | Scheduler/RESCH/core/sched.c:415-435 | A fixed-priority job started under a reserve is charged to it and has its priority saved |
| Reservation.CompletionForgets | Scheduler/RESCH/core/sched.c:444-469 | After a completion in the background the refill asks for nothing, and after the next start for the background priority |
| TaskLookup.HighestPrioTask | Scheduler/RESCH/core/sched.c:636-654 | The first task of the queues laid end to end, or none |
| TaskLookup.NextPrioTask | Scheduler/RESCH/core/sched.c:662-679 | The task after the given one, or none, exactly unless the search wraps; then the head of the queue of the lowest bit of word 0 that the undefined mask lets through |
| TaskLookup.PrevPrioTask | Scheduler/RESCH/core/sched.c:687-705 | The task before the given one, or none |
| TaskLookup.NumberTask | Scheduler/RESCH/core/sched.c:731-757 | The n-th task, or none, exactly unless the count runs past queue 63 and falls back; then it goes round the queues from that lowest bit to 63 and ends at the place the remainder of the count gives |
| TaskLookup.Enumerates | Scheduler/RESCH/core/sched.c:636-705 | The enumeration of a CPU holds its active tasks and no other, each at one place |
| TaskLookup.PrioritiesFall | Scheduler/RESCH/core/sched.c:636-705 | Priorities never rise along it |
| TaskLookup.NeighboursInverse | Scheduler/RESCH/core/sched.c:662-705 | The previous of the next task is the task itself |
| TaskLookup.CountsActive | Scheduler/RESCH/core/sched.h:18-24 | The counter of a CPU is the number of its active tasks |
| TaskLookup.WrapsOnOnes | Scheduler/RESCH/core/sched.c:667-671 | If the machine shifts by 64 as by 0, the next-task search goes wrong exactly behind the last task of priority 35 |
| ReschCore.Scheduler.FpEnqueueTask | Scheduler/RESCH/core/sched_fp.c:28-37 | Appends to the queue of the priority, sets its bit, counts |
| ReschCore.Scheduler.EdfEnqueueTask | Scheduler/RESCH/core/sched_edf.c:33-58 | Inserts before the first task due later, sets the bit, counts, and records the priority |
| ReschCore.Scheduler.DequeueTask | Scheduler/RESCH/core/sched_edf.c:64-75 | Takes the task out, clears the bit if the queue is empty, counts |
| ReschCore.Scheduler.RequeueTask | Scheduler/RESCH/core/sched.c:163-184 | Out of the queue of the old priority, into that of the new |
| ReschCore.Scheduler.ApplyPriority | Scheduler/RESCH/core/sched.c:262-291 | The priority changes only if the kernel grants it, and an active task changes queue |
| ReschCore.Scheduler.SetPolicy | Scheduler/RESCH/core/sched.c:577-610 | The class changes at once; the priority at once or by a later request |
| ReschCore.Scheduler.JobStart | Scheduler/RESCH/core/sched.c:415-439 | The task joins the queue of its class and priority, at the place StepQueues.QueueAfter says, and is charged if it has a reserve; the invariant is kept |
| ReschCore.Scheduler.JobComplete | Scheduler/RESCH/core/sched.c:444-475 | The task leaves; a deadline-class task returns to its base priority; a reserve is no longer charged |
| ReschCore.Scheduler.JobSuspend | Scheduler/RESCH/core/event.c:26-44 | The task asks for its saved priority if that is another one, and leaves its queue; the invariant is kept |
| ReschCore.Scheduler.JobResume | Scheduler/RESCH/core/event.c:13-24 | The task joins the queue of the priority it has |
| ReschCore.Scheduler.constructor | Scheduler/RESCH/core/sched.c:1430-1438 | Every CPU starts with 98 empty queues, clear bitmaps and a zero count, which satisfies the invariant |
| ReschCore.Scheduler.MigrateTask | Scheduler/RESCH/core/sched_fp.c:136-174 | An active task moves to the other CPU's queue of its priority; if it is being charged, the fixed-priority class saves its priority anew |
| ReschCore.Scheduler.ReserveExpire | Scheduler/RESCH/core/reservation.c:215-244 | Without a reserve nothing; else charging stops, and the task goes down to the background, behind all above it as StepQueues.ExpiredGoesDown says, or is refilled at once when the refill is due |
| ReschCore.Scheduler.ClassExpire | Scheduler/RESCH/core/sched_edf.c:149-177 | Down to the background queue, under either class |
| ReschCore.Scheduler.ReserveStart | Scheduler/RESCH/core/reservation.c:157-196 | A new reserve is charged from now on; a second one is refused |
| ReschCore.Scheduler.ReserveStop | Scheduler/RESCH/core/reservation.c:170-210 | The reserve is given up and no longer charged |
| ReschCore.Scheduler.ClassReplenish | Scheduler/RESCH/core/sched_edf.c:179-205 | Back from the background queue, or a request for the saved priority |
| HandleChain.Context.Alloc | Measurer/RESCH/lib/nvrm/nvrm_submthd.c:33-49 | Hands out the least positive handle not in use and adds it alone; aborts exactly when all handles up to 0x40000000 are in use |
| HandleChain.Context.Free | Measurer/RESCH/lib/nvrm/nvrm_submthd.c:51-63 | Removes exactly the given handle; aborts, changing nothing, when it is not in use |
| HandleChain.LeastFreeBound | Measurer/RESCH/lib/nvrm/nvrm_submthd.c:34-39 | The least free handle is at most the number in use plus one |
| HandleChain.GapIsLeastFree | Measurer/RESCH/lib/nvrm/nvrm_submthd.c:36-39 | In an increasing chain the first place that does not hold its own number gives the least free handle |
| HandleChain.FilledRises | Measurer/RESCH/lib/nvrm/nvrm_submthd.c:44-47 | Linking the new handle in there keeps the chain strictly increasing |
| HandleChain.DroppedRises | Measurer/RESCH/lib/nvrm/nvrm_submthd.c:60-62 | Unlinking keeps it strictly increasing and drops one handle |
| HandleChain.AllocFreeUndo | Measurer/RESCH/lib/nvrm/nvrm_submthd.c:33-63 | Freeing the handle just allocated restores the chain |
| GdevList.AddPrev | Scheduler/RESCH/include/gdev_list.h:60-68 | Four pointer writes insert the entry into the ring in front of the given link |
| GdevList.Del | Scheduler/RESCH/include/gdev_list.h:80-89 | The ring closes over the entry, which is left alone in its own ring |
| GdevList.IsEmpty | Scheduler/RESCH/include/gdev_list.h:91-94 | The pointer test holds exactly for a link that is alone |
| Arbiter.BoundedBypass | Scheduler/RESCH/core/gpu_vsched_fifo.c:58-85 | A device that goes on waiting is chosen within as many calls as there are devices, when each call is for the device chosen before |
| Arbiter.SoonBehind | Scheduler/RESCH/core/gpu_vsched_fifo.c:68-78 | From then on each call brings a waiting device one place forward or chooses it |
| Arbiter.RotatedPermutes | Scheduler/RESCH/core/gpu_vsched_fifo.c:68-69 | Rotation keeps the devices, each once |
| Arbiter.FirstIsFirst | Scheduler/RESCH/core/gpu_vsched_fifo.c:71-78 | No waiting device comes before the chosen one |
| VirtualGpu.Physical.SelectNextCompute | Scheduler/RESCH/core/gpu_vsched_fifo.c:58-85 | On the intrusive list: the device goes to the end, the first device with waiting work is returned and recorded, or none |
| VirtualGpu.Physical.Serve | Scheduler/RESCH/core/gpu_vsched_fifo.c:58-85 | A run of such calls, each for the device chosen before, chooses what the value-level run says, however the waiting work changes |
| VirtualGpu.ServedWithin | Scheduler/RESCH/core/gpu_vsched_fifo.c:58-85 | In such a run a device that always has waiting work is chosen within as many calls as there are devices |
| WaitQueue.Queue.Enqueue | Scheduler/RESCH/core/gpu.c:511-526 | Relinks the entity behind exactly those of its own or a higher priority; the queue stays in order |
| WaitQueue.Queue.Dequeue | Scheduler/RESCH/core/gpu.c:532-538 | Unlinks the entity and leaves it alone; the rest keep their order |
| WaitQueue.Queue.NothingWaits | Scheduler/RESCH/core/gpu_vsched_fifo.c:73-73 | The test on the head's pointers holds exactly when no entity is in the queue |

## Left out

- SchedAnalyzer.Analyzer.Run: assumes at least one core, positive run times, no node needing more cores than there are, and run times that add up to less than INT_MAX; the code checks none of this, and the sorting of core states at each step, whose result it does not use, is not modelled.
- SchedAnalyzer.GetSchedNodeInfo: stands for both copies of the tail search, as SchedAnalyzer.GetSchedVacancyNodeInfo does for the gap search; the unfiltered copies are the case of all cores.
- NodeGraph.NewGraph: only for inputs whose insertions close no cycle; on others the code walks a pointer cycle for ever. Null arguments of the insertion do not occur and are not modelled.
- TopicShapes.BuildableForest: levels and a forest are demanded of all topics but do not suffice for all, as TopicShapes.TriangleLoop shows; for topics that are neither layered nor have every shared publisher last, acceptance is only known by following the loops.
- NodeGraph.SearchNode: takes, as the other recursive searches do, ghost ranks that show the pointers acyclic.
- NodeGraph.InsertChildNode: the fixed-size parent array is a sequence that stops growing at its limit.
- NodeGraph.SearchLeafFrom: where the code would write past the 16 places of its array, the method stops and reports it.
- SortKeys.Sort: of the library sort only order and permutation are used; its way of breaking remaining ties is not modelled.
- CommandRing.StepKeeps: accesses take effect in program order, which the barrier in the code is for; the buffer lies below 2^40, and the flags argument is always zero in the code and is not modelled.
- NvrmFifo.Channel.ReadLow: the device is assumed to report the address of the next word to read, inside the buffer, and to leave the valid flag out only while that word is the first; were it to report the end of the buffer, the full test could not see it.
- NvrmFifo.Fifo.OutRing: the wait loops end because a yield lets the device take a step; a device that stops for ever is not modelled. The `kick` and `space` callbacks are not installed by this driver.
- CommandRing.FullTest: masking with a power of two less one is written as a remainder by that power.
- CommandRing.DeviceStep: begin-ring header packing, fences and notifiers are data to the ring.
- Reservation.RefillIff: a reserve is present or not; budgets, timers and when a refill is due are parameters, and servers and the tracing build, which suspends charging at preemptions, are not modelled.
- TaskSteps.StepKeeps: the fair class, whose dequeue does nothing, and following Linux load balancing, which enqueues a task twice, break the invariant and are not among the steps.
- ReschCore.Scheduler.JobStart: starting a task that is active, or completing one that is not, is excluded, as the API does; wake-ups, timers and rescheduling flags are kernel effects.
- ReschCore.Scheduler.JobResume: that a resumption follows a suspension of the same task is not recorded; any task in no queue may be resumed.
- Reservation.ExpireThenRestore: a saved priority out of range, as of a task never charged under fixed priority, is refused by the kernel and is not among the cases.
- ReschCore.Scheduler.SetPolicy: the scheduler thread's request list is not modelled; the answer to a request is a later priority change.
- ActiveQueue.Enqueue: linked list heads are sequences, the bitmap a sequence of words, inside structures that the methods replace; priorities outside 1 to 98 are excluded.
- ReschCore.Scheduler.ApplyPriority: the global list of submitted tasks is not modelled: the deadline class changes priorities without reinserting, so its order is not kept.
- VirtualGpu.Physical.SelectNextCompute: a missing physical device is not modelled; the memory list is the same code.
- WaitQueue.Queue.Enqueue: an entity already queued is excluded.
- VirtualGpu.Physical.Serve: a device's queue is the sequence of its entities, not the linked queue of WaitQueue, so that it can change freely between calls; the arbiter looks at its emptiness only, which WaitQueue.Queue.NothingWaits shows the pointer test to decide.
- HandleChain.Context.Alloc: running out of memory is not modelled.
- Node removal, printing, drawing and configuration loading: input and output.
- `resch_ffz`, `resch_fls`, `resch_fnz`, `resch_fpz`: nothing modelled here calls them.
- GPU credit and band scheduling, reservations, tracing and ioctl wrappers: other parts of the repository.
