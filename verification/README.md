# MaxiNet MapReduce simulator: verified models

The repository simulates MapReduce jobs on an emulated network and shows the results in a web page. This project
models its hardest pieces in Dafny and proves what they are for. `dafny verify dfyconfig.toml` checks everything.

**The simulated job.** `MapReduce.dfy` is the application master's bookkeeping as a value (pending, failed, scheduled,
assigned and finished tasks of each kind), `NodeManager.dfy` one node manager, `PackageRequests.dfy` the container
requests. `Application.dfy` and the class in `NodeManager.dfy` are the two simulators as the program has them, fields
changed in place, each method proved against those values. `Cluster.dfy` puts one application, any number of node
managers and a small nondeterministic resource manager together as a step system; `Runs.dfy` is about whole runs.
`Turns.dfy` joins the two: every turn of the class is a run of the cluster. `Placements.dfy` is about where a run has
put the tasks, `Launches.dfy` about which node runs which task and in which order tasks are launched.
`ContainerSimulator.dfy` is one task's container with its transmissions and its work, `Lives.dfy` what
its end means over any number of kills and launches, and `NodeLives.dfy` joins these to the node manager.
`TaskRunner.dfy` is the timer that drives both simulators.
`Sequences.dfy` and `Options.dfy` hold what lists and missing values need.

**The selector engine** inside Prototype. `Dom.dfy` is the document tree, `Selectors.dfy` what a compiled matcher means
when nothing is remembered, `Chains.dfy` what a selector means without any walk. `Engine.dfy` is the running engine:
the compiler, the cache objects that many nodes share, the resumable nth-child counter. `Meaning.dfy` says what a
selection gives, token by token and candidate by candidate. `DocumentOrder.dfy` is the comparator and the sort that
removes repeats.

**The charts.** `Polylines.dfy` and `Geometry.dfy` hold line series, the function a series draws, and segments in the
plane. `Stack.dfy` is the merge that stacks one series on another or fills between two, `StackedChart.dfy` a whole
chart of stacked series, `Threshold.dfy` the split at a threshold, `Clip.dfy` line drawing inside the axes, `Area.dfy`
the two-way sweep that fills an area.

**The network.** `Topology.dfy` builds racks and the rounds of the fat tree, `Clos.dfy` the Clos network. `Trees.dfy` is
about trees as graphs, `Numerals.dfy` about numbers in names and identifiers, `HostNames.dfy` about when host names
differ, `Networks.dfy` about networks whose nodes are known by name, `FatTree.dfy` about when the fat tree is one.

## Environment

The resource manager, the clock and the host language enter as assumptions, all of them in the guards and
preconditions of the model:

- A granted container has a fresh id and names a registered node; the application master's own container is number 0.
- The resource manager grants only what is owed. A request replaces what is owed at its priority by its ANY count.
- Cleanup in a heartbeat names each container once, and only containers just reported as running. In a run of the
  cluster it does not name the application master's container, so `restart()` does not occur there.
- A completed container the application does not know is its own.
- `DelayQueue.poll` yields any containers of the queue; a container's transmissions end at any time.
- A network has one node for each name: adding a host or a switch under a known name adds no node.
- `Array.prototype.sort` with a comparator is an insertion sort here; what is used of it is that it permutes, sorts,
  and compares two equal nodes if there are any.

## What turned out not to hold

- `restart()` adds `pendingReduces` to itself and keeps the scheduled and assigned tasks.
  `MapReduce.RestartConserves` says exactly when nothing is lost or doubled, `MapReduce.RestartLosesReduce` and
  `MapReduce.RestartDoublesMap` give inputs.
- A container killed while it fetches its input keeps its open transmissions and its time-out. Launched again where its
  input is, it may end as a success without any work: `Lives.EndsTooSoon`. `Lives.AttemptEndsInTime` says exactly which
  launches are safe from that.
- In a tree whose top node is not the document, the fallback comparator puts the top node last, not first.
  `DocumentOrder.ListingIsDocumentOrder` says for exactly which pairs it is document order,
  `DocumentOrder.DetachedTopIsLast` gives a tree.
- The comparator may take different nodes for equal, and `uniqueSort` may then keep repeats: `DocumentOrder.SignIs` says
  exactly which nodes, `DocumentOrder.TieKeepsRepeat` that this is just when repeats may stay, and
  `DocumentOrder.ApartIsTied` and `DocumentOrder.RepeatStays` give inputs.
- A stacked bar stands on the bars of the nearest series below, as they are drawn; where one of the series has no bar,
  what is further down is forgotten. `StackedChart.BarsStackUp` says where each bar starts and ends,
  `StackedChart.BarsAddUp` exactly when that is the sum of all bars below, and `StackedChart.BarsOverlap` gives three
  series of which one bar is drawn over another.
- The threshold split compares a gap as zero and puts it in one output only. `Threshold.SplitIsExact` says exactly
  when the outputs draw the original line; `Threshold.GapIsLost` is an input for which they do not.
- Host names can be ambiguous: `HostNames.NamesShared` says exactly for which racks, `HostNames.HostNamesCollide` gives
  a network. Two hosts with one name are one node, so the fat tree is then no tree (`FatTree.TreeByName`), and two ToR
  switches of a Clos network may be closer than they should (`Clos.FourAcross`, `Clos.CrowdedIsClose`).
- A Clos network with an odd number of racks leaves the switch of the last rack unconnected, unless a host of that rack
  has the name of another rack's: `Clos.ConnectedIfEven`, with `Clos.OneRackAlone` and `Clos.CrowdedIsConnected`.
- A task interval of zero passes the check meant for it and fails in the division after it: `TaskRunner.Task.Init`.

## Model

| member | source | states |
|---|---|---|
| Runs.NothingLost | sls/src/main/java/org/apache/hadoop/yarn/sls/appmaster/MRAMSimulator.java:243-396 | In every run with any number of kills: each map and each reduce of the trace, as often as the trace has it, is in exactly one of pending, failed, scheduled, assigned, finished of its kind, and nothing else is; the counters agree and stay within the total, which is the length of a trace of maps and reduces; while maps are unfinished the owed, granted and arriving containers are as many as the scheduled maps and none is owed for reduces, and after that the other way round |
| Runs.ReducesWaitForMaps | sls/src/main/java/org/apache/hadoop/yarn/sls/appmaster/MRAMSimulator.java:363-396 | No reduce is scheduled, failed, assigned or finished unless every map has finished and no map is anywhere else |
| Placements.ReducesFindMaps | sls/src/main/java/org/apache/hadoop/yarn/sls/scheduler/ContainerSimulator.java:165-166 | In every run, whenever a reduce waits for a container or has one, every map has been given one: what a reduce needs to start its transmissions without failing |
| Runs.FinishedMeansDone | sls/src/main/java/org/apache/hadoop/yarn/sls/appmaster/MRAMSimulator.java:292-303 | A finished application has finished exactly the maps and the reduces of the trace, each as often as the trace has it |
| Launches.NodesRunAssigned | sls/src/main/java/org/apache/hadoop/yarn/sls/nodemanager/NMSimulator.java:291-307 | In every run: what a node runs under a container is the task the application has assigned to it, and the node is the one the container was granted on; each container the application counts on is held by that node, or its end is on the way |
| Launches.LaunchedInOrder | sls/src/main/java/org/apache/hadoop/yarn/sls/appmaster/MRAMSimulator.java:306-396 | Over any run, kind by kind: the tasks launched, in order, and then those still scheduled are those scheduled at the start and then those asked for, in order |
| Launches.AskedInOrder | sls/src/main/java/org/apache/hadoop/yarn/sls/appmaster/MRAMSimulator.java:270-396 | Over any run, kind by kind: the tasks asked for, in order, and then those pending or failed are those there at the start and then those whose containers were learnt to be aborted, in that order |
| Launches.FinishedGivesBack | sls/src/main/java/org/apache/hadoop/yarn/sls/appmaster/MRAMSimulator.java:292-303 | Once the application is finished no node holds its container as running: its end is noted by its node, or reported, once |
| Runs.ReleasedOnce | sls/src/main/java/org/apache/hadoop/yarn/sls/appmaster/MRAMSimulator.java:292-303 | Over any run the AM container is released once if the application finishes in it and never otherwise; finishing is final |
| Runs.WorkLaw | sls/src/main/java/org/apache/hadoop/yarn/sls/appmaster/MRAMSimulator.java:249-396 | Over any run, work done plus work left is the work at the start plus three per kill: 3 per pending or failed task, 2 per scheduled, 1 per assigned, 3 per kill on its way |
| Runs.WorkIsBounded | sls/src/main/java/org/apache/hadoop/yarn/sls/appmaster/MRAMSimulator.java:249-396 | A run asks, launches, handles statuses and finishes at most three times per task, three per kill, and once |
| Runs.NeverStuck | sls/src/main/java/org/apache/hadoop/yarn/sls/appmaster/MRAMSimulator.java:249-396 | From every reachable unfinished state some steps without a kill do work: a message, a debt, a next request or a container to report is always there |
| Runs.CanFinish | sls/src/main/java/org/apache/hadoop/yarn/sls/appmaster/MRAMSimulator.java:249-396 | Every run, wherever it is, can be continued without another kill until the application is finished |
| Runs.InitialInv | sls/src/main/java/org/apache/hadoop/yarn/sls/appmaster/MRAMSimulator.java:125-149 | The state after init with the AM container placed satisfies the invariant |
| Runs.DoKeeps | sls/src/main/java/org/apache/hadoop/yarn/sls/appmaster/MRAMSimulator.java:243-396 | Every enabled step keeps the invariant |
| Runs.DrainedIsARun | sls/src/main/java/org/apache/hadoop/yarn/sls/appmaster/MRAMSimulator.java:245-323 | From every state the invariant allows, handling what is left of a response is a run of handling steps |
| Turns.HandlingIsARun | sls/src/main/java/org/apache/hadoop/yarn/sls/appmaster/MRAMSimulator.java:243-324 | What the class's contract says of a response, with no view of the resource manager, is where a run of the cluster leads |
| Turns.AskingIsAStep | sls/src/main/java/org/apache/hadoop/yarn/sls/appmaster/MRAMSimulator.java:354-425 | What the requests sent make the resource manager owe, request by request, is what the cluster's asking step says: the ANY count, which is the number of tasks asked for |
| Turns.MiddleStep | sls/src/main/java/org/apache/hadoop/yarn/sls/appmaster/AMSimulator.java:153-162 | From any state that mirrors a reachable state of the cluster, one turn of the class (queue, request, finish check) is a run of the cluster, and it mirrors the state that run leads to |
| Turns.Start | sls/src/main/java/org/apache/hadoop/yarn/sls/appmaster/MRAMSimulator.java:125-229 | Set up over empty node managers and given its container, the class mirrors an initial state |
| Turns.NodeStep | sls/src/main/java/org/apache/hadoop/yarn/sls/nodemanager/NMSimulator.java:141-225 | A node manager's heartbeat in place is the cluster's step, and its terminal statuses are those the resource manager gets |
| Turns.GrantIsUnseen | sls/src/main/java/org/apache/hadoop/yarn/sls/appmaster/AMSimulator.java:153-162 | A grant changes nothing the class can see before its next request |
| Cluster.GrantFindsTask | sls/src/main/java/org/apache/hadoop/yarn/sls/appmaster/MRAMSimulator.java:306-322 | A task waits for every granted container that is handled: none is dropped, and none was held before |
| Cluster.HandleStatusKeeps | sls/src/main/java/org/apache/hadoop/yarn/sls/appmaster/MRAMSimulator.java:252-289 | Handling a completed container keeps the invariant: it was counted on, and is no more |
| Cluster.HandleCheckKeeps | sls/src/main/java/org/apache/hadoop/yarn/sls/appmaster/MRAMSimulator.java:292-303 | The finish check keeps the invariant |
| Cluster.HandleGrantKeeps | sls/src/main/java/org/apache/hadoop/yarn/sls/appmaster/MRAMSimulator.java:306-322 | Launching keeps the invariant |
| Cluster.AllocateKeeps | sls/src/main/java/org/apache/hadoop/yarn/sls/appmaster/MRAMSimulator.java:354-425 | Sending a request and receiving the response keeps the invariant |
| Cluster.HeartbeatKeeps | sls/src/main/java/org/apache/hadoop/yarn/sls/nodemanager/NMSimulator.java:141-225 | A node manager's heartbeat keeps the invariant: a container is held, or its end is on the way, just while the application counts on it |
| MapReduce.RestartConserves | sls/src/main/java/org/apache/hadoop/yarn/sls/appmaster/MRAMSimulator.java:329-351 | restart() keeps the maps if and only if none is scheduled or assigned, and the reduces if and only if none is pending, failed or finished |
| MapReduce.RestartLosesReduce | sls/src/main/java/org/apache/hadoop/yarn/sls/appmaster/MRAMSimulator.java:329-343 | A started application with one pending reduce, which a restart loses |
| MapReduce.RestartDoublesMap | sls/src/main/java/org/apache/hadoop/yarn/sls/appmaster/MRAMSimulator.java:329-343 | A started application with one scheduled map, which a restart doubles |
| MapReduce.ScheduleKeeps | sls/src/main/java/org/apache/hadoop/yarn/sls/appmaster/MRAMSimulator.java:363-396 | Asking moves tasks and loses none |
| MapReduce.OfKindCounts | sls/src/main/java/org/apache/hadoop/yarn/sls/appmaster/MRAMSimulator.java:135-148 | The list of a kind holds each task of that kind as often as the trace does, and no other task |
| MapReduce.OfKindInOrder | sls/src/main/java/org/apache/hadoop/yarn/sls/appmaster/MRAMSimulator.java:135-148 | It holds them in the order of the trace |
| Application.MRAMSimulator.constructor | sls/src/main/java/org/apache/hadoop/yarn/sls/appmaster/MRAMSimulator.java:125-149 | Tasks of the two kinds in order, nothing scheduled, the totals counted |
| Application.MRAMSimulator.ProcessResponseQueue | sls/src/main/java/org/apache/hadoop/yarn/sls/appmaster/MRAMSimulator.java:243-324 | Every response is handled, up to where restart() would wait for a new AM container: the application's and all node managers' states, and what is left over then, are those the cluster's handling steps lead to |
| Application.MRAMSimulator.ProcessResponse | sls/src/main/java/org/apache/hadoop/yarn/sls/appmaster/MRAMSimulator.java:246-322 | The same for one response: statuses, finish check, grants |
| Application.MRAMSimulator.SendContainerRequest | sls/src/main/java/org/apache/hadoop/yarn/sls/appmaster/MRAMSimulator.java:354-402 | Nothing is sent once finished; otherwise a package for exactly the tasks of the next ask, which are scheduled |
| Application.MRAMSimulator.ClearForRestart | sls/src/main/java/org/apache/hadoop/yarn/sls/appmaster/MRAMSimulator.java:329-343 | The fields restart() clears and the ones it leaves |
| PackageRequests.Package | sls/src/main/java/org/apache/hadoop/yarn/sls/appmaster/AMSimulator.java:329-372 | One request per node and per rack with as many containers as tasks name it, each node and rack of a task covered, and an ANY request for all |
| PackageRequests.PackageAddsUp | sls/src/main/java/org/apache/hadoop/yarn/sls/appmaster/AMSimulator.java:329-372 | Node counts, rack counts and the ANY count each sum to the number of tasks |
| PackageRequests.RequestsAre | sls/src/main/java/org/apache/hadoop/yarn/sls/appmaster/AMSimulator.java:329-372 | What is sent: a request for every host of a task, with the number of tasks on that host, then one for every rack, with the number of tasks in that rack, each name once and nothing else, then one for anywhere with the number of tasks |
| NodeManager.EachContainerOnce | sls/src/main/java/org/apache/hadoop/yarn/sls/nodemanager/NMSimulator.java:165-320 | Over any run of a node manager each added container is in one place (running, AM, completed, released, reported or dropped), and at most one terminal status, success or abortion, is ever sent for it |
| NodeManager.BeatKeeps | sls/src/main/java/org/apache/hadoop/yarn/sls/nodemanager/NMSimulator.java:165-221 | A heartbeat moves containers between lists and into its report; only AM containers are dropped without a status |
| NodeManager.BeatReportsAre | sls/src/main/java/org/apache/hadoop/yarn/sls/nodemanager/NMSimulator.java:165-221 | A heartbeat reports a success for exactly the containers polled in it or given back, and an abortion for exactly those cleaned up before; those it cleans up, other than AM containers, wait for the next one |
| NodeManager.NMSimulator.MiddleStep | sls/src/main/java/org/apache/hadoop/yarn/sls/nodemanager/NMSimulator.java:141-221 | One heartbeat in place: the new lists and the terminal statuses reported |
| NodeManager.NMSimulator.GenerateContainerStatusList | sls/src/main/java/org/apache/hadoop/yarn/sls/nodemanager/NMSimulator.java:235-269 | Exactly the running and AM containers as running, then the completed and the released ones, which are reported once |
| NodeManager.NMSimulator.AddNewContainer | sls/src/main/java/org/apache/hadoop/yarn/sls/nodemanager/NMSimulator.java:291-307 | A task container enters three collections, an AM container its list |
| NodeManager.NMSimulator.CleanupContainer | sls/src/main/java/org/apache/hadoop/yarn/sls/nodemanager/NMSimulator.java:313-320 | The AM container moves to the completed list |
| ContainerSimulator.ContainerSimulator.StartTransmission | sls/src/main/java/org/apache/hadoop/yarn/sls/scheduler/ContainerSimulator.java:122-184 | Exactly what is asked of the network, what stays open and until when: nothing without the emulator or for a map at one of its splits, one transfer for any other map, a share from every map elsewhere for a reduce; it fails if and only if a map has no split or a reduce finds a map without a container |
| ContainerSimulator.InputArrives | sls/src/main/java/org/apache/hadoop/yarn/sls/scheduler/ContainerSimulator.java:165-174 | What a reduce is sent and what it has at hand make up its input, less than one byte a map short |
| ContainerSimulator.SharesFrom | sls/src/main/java/org/apache/hadoop/yarn/sls/scheduler/ContainerSimulator.java:165-174 | From every other host a reduce asks for as many shares as maps were placed there, up to the first map without a container; all go to its own host, and none comes from it |
| ContainerSimulator.ContainerSimulator.NotifyTransmissionCompleted | sls/src/main/java/org/apache/hadoop/yarn/sls/scheduler/ContainerSimulator.java:190-192 | The transmission is no longer open |
| ContainerSimulator.NotifyAll | sls/src/main/java/org/apache/hadoop/yarn/sls/nodemanager/NMSimulator.java:159-161 | Every waiting simulator hears of a completed transmission |
| ContainerSimulator.StartReady | sls/src/main/java/org/apache/hadoop/yarn/sls/nodemanager/NMSimulator.java:165-172 | Those with nothing open start their work now, exactly the others go on waiting |
| Lives.EndsForAReason | sls/src/main/java/org/apache/hadoop/yarn/sls/scheduler/ContainerSimulator.java:113-184 | In every life, with any kills and launches: when the container ends it has worked its life time after all it asked for arrived, or fifty life times have passed since something was last asked for |
| Lives.AttemptEndsInTime | sls/src/main/java/org/apache/hadoop/yarn/sls/scheduler/ContainerSimulator.java:122-184 | However an attempt goes on, it ends only after its work or after fifty life times of waiting, if and only if its launch asks for something, or nothing is left open by earlier attempts, or the time-out left by them is late enough |
| Lives.CleanLivesEndInTime | sls/src/main/java/org/apache/hadoop/yarn/sls/scheduler/ContainerSimulator.java:113-184 | That is so in every life without a kill while transmissions are open |
| Lives.EndsTooSoon | sls/src/main/java/org/apache/hadoop/yarn/sls/scheduler/ContainerSimulator.java:122-184 | A life with such a kill that ends with neither |
| NodeLives.TurnLives | sls/src/main/java/org/apache/hadoop/yarn/sls/nodemanager/NMSimulator.java:141-221 | A heartbeat of a node manager, with its times and messages, is an event of the life of every simulator it holds, and a kill for those cleaned up; which are ready, waiting and queued agree with the lives before and after |
| NodeLives.LivesGoOn | sls/src/main/java/org/apache/hadoop/yarn/sls/nodemanager/NMSimulator.java:141-221 | Over any heartbeats, the life of a simulator that is not cleaned up goes on as a run of such events |
| NodeLives.LaunchLives | sls/src/main/java/org/apache/hadoop/yarn/sls/nodemanager/NMSimulator.java:291-307 | Adding a container is the launch of its simulator's life |
| NodeLives.StartLife | sls/src/main/java/org/apache/hadoop/yarn/sls/scheduler/ContainerSimulator.java:122-184 | Starting the transmissions in place is that launch, with what was fetched and the replies |
| NodeLives.HearAndStart | sls/src/main/java/org/apache/hadoop/yarn/sls/nodemanager/NMSimulator.java:141-172 | Telling waiting simulators of messages and starting those that are ready is the first half of a heartbeat in each life |
| TaskRunner.Task.Init | sls/src/main/java/org/apache/hadoop/yarn/sls/scheduler/TaskRunner.java:49-71 | Accepted if and only if the interval is positive and the span a multiple of it; a zero interval ends in a division by zero |
| TaskRunner.Task.TimeRebase | sls/src/main/java/org/apache/hadoop/yarn/sls/scheduler/TaskRunner.java:70-74 | Both times move to the clock and the next run is the start |
| TaskRunner.Task.Run | sls/src/main/java/org/apache/hadoop/yarn/sls/scheduler/TaskRunner.java:88-107 | One execution, with a step that may move the end time |
| TaskRunner.Schedule | sls/src/main/java/org/apache/hadoop/yarn/sls/scheduler/TaskRunner.java:74-107 | However steps move the end time: the k-th execution is due at start + k * interval, the first step is the first execution only, the last step the last only, at the first time from the second on that is not before the end in force |
| TaskRunner.OnlyFirst | sls/src/main/java/org/apache/hadoop/yarn/sls/scheduler/TaskRunner.java:88-96 | If the first step leaves the end before the next time, nothing else runs |
| TaskRunner.Undisturbed | sls/src/main/java/org/apache/hadoop/yarn/sls/scheduler/TaskRunner.java:49-107 | Over n intervals: first, n - 1 middle steps, last; over none only the first |
| Engine.Sizzle.Match | html/prototype.js:5770-5829 | A compiled matcher, caches included, answers exactly what it means without them, and keeps every cache right |
| Engine.Sizzle.MatchCached | html/prototype.js:5797-5813 | The remembering walk: one cache object on many nodes, overwritten by inner walks, stale runs ignored, and still the answer of the plain walk |
| Engine.Sizzle.MatchPlain | html/prototype.js:5788-5795 | The walk in XML mode answers whether some stop satisfies the inner matcher |
| Engine.Sizzle.MatchNearest | html/prototype.js:5775-5782 | The walk of `>` and `+` answers for the nearest stop |
| Engine.Sizzle.MatchNthChild | html/prototype.js:5411-5485 | True if and only if the position among counted siblings is a*n+b for some n >= 0, whatever is remembered |
| Engine.Sizzle.ResumeCount | html/prototype.js:5446-5461 | Resuming from the place kept on the parent gives the position, whatever was asked before |
| Engine.CountForward | html/prototype.js:5453-5461 | The wrapping count terminates with the position, from any place it resumes at |
| Engine.Sizzle.CountFromStart | html/prototype.js:5463-5479 | The other counts, from either end and by type, with counts left on nodes passed |
| Engine.Sizzle.MatcherFromTokens | html/prototype.js:5942-5991 | The compiled form of the tokens, each walk with a number of its own |
| Engine.Sizzle.Compile | html/prototype.js:6077-6101 | One compiled matcher per group, last group first |
| Engine.Sizzle.Select | html/prototype.js:5996-6069 | One run, for its context unless that is the document, selects exactly the elements some matcher means, in order, and leaves the outermost context as it found it |
| Engine.Sizzle.SelectAll | html/prototype.js:5996-6023 | Any sequence of runs, each on its own tree, is right whatever earlier runs left in the caches |
| Engine.Sizzle.Find | html/prototype.js:5942-6102 | From tokens to elements: exactly the candidates that end a chain for one of the groups, in order |
| Meaning.OneFilter | html/prototype.js:5954-6008 | A single simple selector accepts what satisfies it and lies below a context node; anywhere, if the context is the document or the document is XML |
| Meaning.OneCombinator | html/prototype.js:5942-5961 | A leading combinator relates to a context node, whatever the context is |
| Meaning.OneMoreFilter | html/prototype.js:5965-5991 | One simple selector more is one more test of the same element |
| Meaning.OneMoreCombinator | html/prototype.js:5962-5964 | With one combinator more, what the selector so far accepts is to be an element in that relation |
| Meaning.PlainSelectors | html/prototype.js:5954-6008 | A selector without a leading combinator accepts what ends a chain that begins below a context node; anywhere, if the context is the document or the document is XML |
| Meaning.RelationsAre | html/prototype.js:5295-5300 | The four combinators, by levels up the tree and by places among the children of one parent |
| Meaning.PositionIs | html/prototype.js:5411-5485 | A position is the number of counted siblings up to the element, itself included, from either end, by type or not |
| Meaning.SubjectsCount | html/prototype.js:5996-6023 | Each candidate some group accepts is selected as often as it is a candidate, and nothing else is |
| Meaning.SubjectsInOrder | html/prototype.js:5996-6023 | In the order of the candidates |
| Selectors.XmlModeAgrees | html/prototype.js:5788-5814 | XML mode, which remembers nothing, gives the same answers wherever it implies the same context |
| Selectors.NthTestSelects | html/prototype.js:5482-5483 | The closing remainder and quotient test holds if and only if the position is a*n+b for some n >= 0, for all integers a and b (section 6.6.5.2 of Selectors Level 3) |
| Selectors.PositionsMeet | html/prototype.js:5444-5480 | Positions from the two ends add up to the number of counted siblings plus one |
| Chains.CompiledMeaning | html/prototype.js:5942-5991 | The compiled form accepts a node if and only if it ends a chain of nodes that satisfy the compounds and are related by the combinators (section 8 of Selectors Level 3) |
| Chains.ReachesRelated | html/prototype.js:5770-5815 | A walk succeeds if and only if some stop in the combinator's relation satisfies the inner matcher, for all four combinators |
| DocumentOrder.Sorter.SortOrder | html/prototype.js:5116-5161 | Terminates; in one tree the sign is the order of the listing, zero only for equal nodes; for nodes of different trees it is as `CrossOrder` says |
| DocumentOrder.ListingIsDocumentOrder | html/prototype.js:5116-5161 | That order is document order for a pair if and only if the top is the document or neither node is the top |
| DocumentOrder.DetachedTopIsLast | html/prototype.js:5131-5137 | A tree of two elements outside the document, whose top is sorted after its child |
| DocumentOrder.SignIs | html/prototype.js:5116-5161 | The comparator answers zero for two different nodes if and only if they are in different trees, neither is the document, and they are both tops that the input does not tell apart or both not, in trees other than the preferred document's (`Tied`); otherwise its sign is an order (`Before`) |
| DocumentOrder.BeforeTrans | html/prototype.js:5116-5161 | That order is transitive, over any trees, ties or not |
| DocumentOrder.TotalUnlessTied | html/prototype.js:5116-5161 | The comparator is a strict total order on nodes if and only if no two of them tie |
| DocumentOrder.FollowsWhole | html/prototype.js:5116-5161 | Over the document's tree and one other tree it is the order of one list, the document in document order and then the other tree, and nothing ties |
| DocumentOrder.ApartIsTied | html/prototype.js:5131-5160 | Two nodes of two trees outside the document, which it takes for equal |
| DocumentOrder.TieKeepsRepeat | html/prototype.js:5228-5252 | Of two nodes, one of them twice, everything that a sort by the comparator may return is freed of the repeat if and only if they do not tie |
| DocumentOrder.RepeatStays | html/prototype.js:5228-5252 | A list of those two nodes, sorted by the comparator, in which the repeat stays |
| DocumentOrder.Sorter.SiblingCheck | html/prototype.js:4795-4814 | The order of two siblings, or of a node and a list that has run out |
| DocumentOrder.Sorter.AncestorList | html/prototype.js:5142-5149 | The ancestors from the top down |
| DocumentOrder.DivergenceOrders | html/prototype.js:5151-5156 | Where two ancestor lists part decides document order |
| DocumentOrder.Sorter.UniqueSort | html/prototype.js:5228-5252 | Each node of the input once, in the comparator's order, from any trees of which no two nodes tie; with a sort that is not stable the input breaks the ties of tops |
| DocumentOrder.RisingIsOne | html/prototype.js:5228-5252 | There is only one such list |
| DocumentOrder.RisesInWhole | html/prototype.js:5228-5252 | In the document's tree and one other it is what the input holds of their list, in that order |
| DocumentOrder.DropRepeats | html/prototype.js:5238-5247 | Splicing from the last repeat to the first leaves what does not repeat its predecessor |
| Stack.StackData | html/flot/jquery.flot.stack.js:80-176 | The loop yields the walk's rows, for all sorted series with or without gaps and vertical steps, and never divides by zero |
| Stack.ComputeFillBottoms | html/flot/jquery.flot.fillbetween.js:88-213 | The same for filling between two series |
| Stack.MergeSorted | html/flot/jquery.flot.stack.js:80-174 | Sorted series, with gaps and vertical steps, give sorted rows |
| Stack.StackPoints | html/flot/jquery.flot.stack.js:80-174 | For two lines, with or without gaps: the x values strictly increase and are exactly the points of either where both have a value |
| Stack.StackIsSum | html/flot/jquery.flot.stack.js:80-174 | For two lines, with or without gaps: what is drawn is the pointwise sum (for a fill, the series itself), run by run, exactly where both series have a value and nowhere else |
| Polylines.OneValue | html/flot/jquery.flot.stack.js:80-174 | A series with increasing keys has at most one value at each x |
| Stack.FillStartsAtOther | html/flot/jquery.flot.fillbetween.js:88-192 | The bottoms draw the other series, on top of what the third column held, exactly where both have a value, with or without gaps |
| Stack.StackedBars | html/flot/jquery.flot.stack.js:97-162 | For bars with increasing keys, with or without gaps: as many bars as before, in their places; stacked, each gains what the other series has at the same x, at its end and, if it has a bottom, at its start; filled between, it keeps its value and starts at what the other series has there, at its own start once the other series has ended; all other columns are kept |
| Stack.ColumnsKept | html/flot/jquery.flot.stack.js:91-156 | Lines and bars: every row of the result is a row of the series, or lies on the line up to it, and has its further columns |
| StackedChart.FindMatchingSeries | html/flot/jquery.flot.stack.js:44-55 | The nearest series before this one with the same key, or that there is none |
| StackedChart.ProcessDatapoints | html/flot/jquery.flot.js:1222-1226 | Each series, lines or bars, sorted, with or without gaps, is processed once, on what was processed before it, and is sorted again |
| StackedChart.StacksAddUp | html/flot/jquery.flot.stack.js:44-176 | In a stack of lines, with or without gaps, every series is drawn at the sum of all series up to it with its key, exactly where all of them have a value |
| StackedChart.BarsStackUp | html/flot/jquery.flot.stack.js:44-162 | In a stack of bars every bar reaches from where the bars of the series below end, at its place, to its own value above that, series by series down to one without a bar there; bars are as many as before and in their places |
| StackedChart.BarsAddUp | html/flot/jquery.flot.stack.js:44-162 | A bar stands on the sum of all bars below it if and only if those below the nearest missing bar come to zero; if none is missing it does |
| StackedChart.BarsOverlap | html/flot/jquery.flot.stack.js:44-162 | Three series of bars, the middle one without a bar at some place, where the upper bar starts at zero and not on the lower one |
| Threshold.ThresholdData | html/flot/jquery.flot.threshold.js:69-101 | The loop with its switching output yields both outputs |
| Threshold.SplitIsExact | html/flot/jquery.flot.threshold.js:69-101 | The outputs draw the parts of the original segments above and below, in order and nothing else, if and only if no point follows a gap on the side the gap did not go to after that side had points |
| Threshold.SplitCovers | html/flot/jquery.flot.threshold.js:69-101 | Where that is so, a point is covered by one of the outputs if and only if the original covers it, the upper output covering all from the threshold up |
| Threshold.PartsAreHalves | html/flot/jquery.flot.threshold.js:79-95 | The parts of a segment are its points from the threshold up and those from it down |
| Threshold.OutRows | html/flot/jquery.flot.threshold.js:73-100 | Every row of an output is an original on its side, a crossing of two neighbours or a gap, and on the right side of the threshold |
| Threshold.OriginalsKept | html/flot/jquery.flot.threshold.js:97-100 | Every original is in its side's output, in order |
| Threshold.EachRowOnce | html/flot/jquery.flot.threshold.js:73-101 | Counted over both outputs: every original once, and with lines two crossings and a gap for each crossing; without lines nothing more |
| Threshold.SideCounts | html/flot/jquery.flot.threshold.js:73-101 | Without lines an output holds exactly the originals of its side, each as often as it is there |
| Threshold.SideInOrder | html/flot/jquery.flot.threshold.js:73-101 | And in their order |
| Threshold.CrossingIsCut | html/flot/jquery.flot.threshold.js:79-95 | The crossing lies on the segment, at the threshold, with the further columns of the row after it |
| Threshold.GapIsLost | html/flot/jquery.flot.threshold.js:74-101 | A gap between two points above a positive threshold disappears from the upper output |
| Clip.PlotLine | html/flot/jquery.flot.js:2241-2318 | A point is drawn if and only if it lies on the line series and in the axes |
| Clip.ClipSegment | html/flot/jquery.flot.js:2254-2307 | What is kept of a segment is its intersection with the axes; what is skipped has none |
| Clip.ClipIsExact | html/flot/jquery.flot.js:2254-2265 | One clip keeps exactly the part within the border |
| Clip.ClipYMin | html/flot/jquery.flot.js:2255-2266 | The clip at ymin, without a division by zero |
| Clip.ClipYMax | html/flot/jquery.flot.js:2268-2280 | The clip at ymax |
| Clip.ClipXMin | html/flot/jquery.flot.js:2282-2294 | The clip at xmin |
| Clip.ClipXMax | html/flot/jquery.flot.js:2296-2308 | The clip at xmax |
| Area.PlotLineArea | html/flot/jquery.flot.js:2331-2461 | The sweep terminates for all points and gaps, and draws one area per run of points that is visible: forward along the top, back along the bottom |
| Area.LinesAreClamped | html/flot/jquery.flot.js:2366-2460 | The lines of a segment draw exactly its points between xmin and xmax, with y clamped to the axes |
| Area.TopIsClamped | html/flot/jquery.flot.js:2336-2460 | Over a run with increasing keys the forward path draws exactly the series between xmin and xmax, clamped to the axes; where segments meet nothing is added |
| Area.BottomIsClamped | html/flot/jquery.flot.js:2336-2460 | The path back draws exactly the series of the bottoms in the same way |
| Area.AreasBalanced | html/flot/jquery.flot.js:2353-2405 | Paths are begun and filled in turn, and no area is open at the end |
| Area.RunIs | html/flot/jquery.flot.js:2331-2461 | A run with increasing keys of which nothing is visible gives no area; any other gives one: from the base to where its top begins, along exactly the visible tops, back along exactly the visible bottoms, filled |
| Area.OneRun | html/flot/jquery.flot.js:2331-2461 | A series without gaps is one run |
| Area.AreasPart | html/flot/jquery.flot.js:2331-2461 | A gap parts a series: the areas before it, then those after it |
| Area.BaseIs | html/flot/jquery.flot.js:2324 | Areas go down to the level nearest to zero on the axis |
| Area.SketchSegment | html/flot/jquery.flot.js:2366-2460 | The clips and corner points of one segment |
| FatTree.BuildFatTree | network_emulator/topology.py:136-164 | Nodes and links, rack by rack and round by round, a datapath id of its own for every switch; the network is a tree if and only if there are racks and no two hosts get the same name |
| FatTree.TreeByName | network_emulator/topology.py:136-164 | By name, one link fewer than nodes and exactly one simple path between any two nodes, if and only if no rack's number goes on in another's as its host numbers do (`Clash`) |
| FatTree.SharedNameCloses | network_emulator/topology.py:98-161 | Two hosts with one name make two simple paths between their ToR switches, one over them and one over the switches |
| Topology.LinkedByLinks | network_emulator/topology.py:104-161 | Two nodes, told apart by number, are linked in the tree of what was added if and only if a link was added between them |
| Topology.EquallyDeep | network_emulator/topology.py:142-164 | Every ToR switch is as many links below the one root as the tree is high |
| Topology.HeightIsLog | network_emulator/topology.py:142-164 | The height is the logarithm to base two of the number of racks, rounded up |
| Topology.Topology.constructor | network_emulator/topology.py:70-115 | A ToR switch per rack with a link to each of its hosts; a node for each name |
| Topology.Topology.FatTree | network_emulator/topology.py:136-164 | The rounds of pairing end with one root |
| Topology.IdsDiffer | network_emulator/topology.py:48-52 | No two switches have the same datapath id |
| Topology.IdsInTurn | network_emulator/topology.py:48-52 | The id of every switch, read as a hexadecimal number, is its turn: as many less than the latest as switches were added after it |
| Topology.NamesSpelled | network_emulator/topology.py:89-147 | The name of a node, letter by letter: its prefix and its numbers in decimal digits, those of a host at least two digits long |
| Topology.OneOrTwoBelow | network_emulator/topology.py:142-164 | Every switch of the fat tree is put over one or two nodes |
| Topology.SwitchNamesDiffer | network_emulator/topology.py:90-147 | No two switches have the same name |
| Topology.NumberedInTurn | network_emulator/topology.py:140-150 | The switches of the fat tree are numbered in the order they are added |
| HostNames.NamesShared | network_emulator/topology.py:87-100 | Two hosts of a network share a name if and only if, for some numbers r >= 10 and x, rack r has more than 100 x hosts and the rack numbered with the digits of r and then those of x has a host |
| HostNames.FullRacks | network_emulator/topology.py:87-100 | With a host in every rack that is so if and only if a rack r >= 10 has more than a hundred hosts and there is a rack 10 r + 1 |
| HostNames.HostNamesCollide | network_emulator/topology.py:98-100 | A network of 101 racks in which host 101 of rack 10 and host 1 of rack 101 share a name |
| Trees.PathUnique | network_emulator/topology.py:130-164 | A tree has at most one simple path between two nodes |
| Trees.PathExists | network_emulator/topology.py:130-164 | A tree has a simple path between any two nodes |
| Clos.BuildClos | network_emulator/topology.py:171-249 | The nodes and links of the Clos network over these racks, a node for each name, a datapath id of its own for every switch |
| Clos.LinkIs | network_emulator/topology.py:200-249 | Exactly which pairs of nodes are linked |
| Clos.NodeIs | network_emulator/topology.py:180-199 | Exactly which nodes there are, switches by number |
| Clos.AddedOnce | network_emulator/topology.py:87-249 | No node and no link is added twice |
| Clos.ConnectedIfEven | network_emulator/topology.py:171-249 | By name, the network is connected if and only if there are racks and their number is even, or a host of the last rack shares its name with one of another rack (`LastShares`) |
| Clos.OneRackAlone | network_emulator/topology.py:171-249 | A network of one rack, which is not connected |
| Clos.CrowdedIsConnected | network_emulator/topology.py:171-249 | A network of 101 racks, which a shared host connects |
| Clos.NoSwitchCuts | network_emulator/topology.py:171-249 | With an even number of racks any two ToR switches stay connected, by name, without any one core or pod switch, over 2 links in a pod and 4 across |
| Clos.Distance | network_emulator/topology.py:171-249 | By name, two ToR switches are at least 2 links apart, and at least 4 if their pods differ and their racks are no twins |
| Clos.FourAcross | network_emulator/topology.py:171-249 | Racks of different pods are less than 4 links apart if and only if they are twins: they share a host by name |
| Clos.CrowdedIsClose | network_emulator/topology.py:171-249 | A network of 102 racks in which two racks of different pods are less than 4 links apart |

## Left out

- `restart()` as a step of the cluster: only its effect on the tasks and when it conserves them are here.
- ProcessResponse: ends where restart() would wait for a new AM container; what the program takes from the queue while
  it waits (`requestAMContainer`), and how it goes on, is not here.
- ProcessResponseQueue: ends there, too.
- Registering the application, tokens, coflows and logging.
- Thread interleavings inside one method of a simulator: each method is one step, or one step per container.
- The resource manager's scheduling, priorities between applications, and capability of containers.
- The cluster does not carry each container's clock; `NodeLives.dfy` joins one node manager with the lives of its
  containers. `DelayQueue` order is not kept by the program either, as `endTime` changes in the queue, so any expired
  container may be polled.
- The network emulator's replies to a request, an id or -1, are any numbers; a request that throws is not modelled.
- `TaskRunner`'s thread pool and queue: one task and its executions are modelled.
- Sizzle: `querySelectorAll`, positional and set filters, `:has` and `:not`, which start nested runs, first-child,
  last-child and only-child, tokenizing, the compiler cache, feature tests and `sourceIndex`.
- Simple filters other than nth-child and nth-of-type are labels whose answer depends on the element alone.
- UniqueSort: results among which two different nodes tie; what comes of them depends on the host's sort.
- The rest of Prototype, excanvas, the other chart plugins, tick labels and colours.
- Floating point: the charts are over real numbers.
- Flat point arrays are sequences of rows: a row is a gap or a point, and a pushed row is pushed whole. Further columns
  of a gap row are not kept.
- StackData: horizontal stacking, where an interpolated row gets its key in the wrong column, and the steps mode.
- StackData: series that are not sorted by x, which the plugin does not promise to handle, must have no two neighbours
  with the same x, where the program may divide by zero and get a NaN. Sorted series may have vertical steps.
- ComputeFillBottoms: the same as for StackData.
- StackIsSum: keys strictly increase; a vertical step has no one value, and there the rows are fixed by
  `Stack.StackData`.
- StackedBars: keys strictly increase; bars at one place in one series are fixed by `Stack.StackData` only.
- BarsStackUp: the same, and the series of one key are all bars; a stack of lines and bars is fixed by
  `StackedChart.ProcessDatapoints`.
- ProcessDatapoints: series are sorted by x, as the plugin asks for.
- TopIsClamped: over runs whose keys are not sorted the path may join segments by lines along a border, and only
  `Area.LinesAreClamped` and `Area.PlotLineArea` hold. The same goes for BottomIsClamped.
- BottomIsClamped: as for TopIsClamped.
- ThresholdData: one threshold; with several the outputs of one are the input of the next.
- PlotLineArea: needs ymin <= ymax and a third column, which the chart adds to filled series.
- `FatTree`'s bandwidths and delays, and the maps from host names to addresses.
- `Clos` with an odd number of racks is built without its last rack, as under Python 2; the branch for a short last pod
  is never taken.
