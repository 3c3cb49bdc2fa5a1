# Verified model of the Haikunet simulator and compiler

Haikunet compiles network intents into a PowerDEVS discrete-event simulation. This Dafny project models
the parts of both that hold unbounded properties and proves them for every input, every run or every
reachable state. `dafny verify dfyconfig.toml` checks all of it.

What the source changes in place is a class here, whose methods are proved against functions on values;
the properties are then proved of those functions, of state machines built from them, and of all their
runs. What the source computes by expressions and recursion is functions and lemmas.

## The parts

**Reliable transport** (`TcpSender`, `TcpWindow`, `TcpReceiver`, `TcpProtocol`, `TcpLiveness`). The sliding-window
sender with its timeout, slow start and congestion avoidance, the acknowledger and the reordering
receive buffer. `TcpProtocol` runs one sender per source over a network that loses, duplicates and
reorders packets and acknowledgements. Safety: each source's packets come out as a prefix of what went
in, once each and in order, and nothing dropped by a sender is missing at the receiver. Liveness: from
every reachable state a run without further losses brings everything out. `TcpWindow` gives, over whole
runs of one sender, the window after a timeout and any number of acknowledgements, when it plans to send,
and how often it sent each packet. Wiring assumed: an arriving data packet reaches the acknowledger and the receive buffer
in the same event.

**Simulation kernel** (`ChildHeap`, `Routing`, `Kernel`, `KernelProofs`, `FlatSimulator`, `Simulator`,
`Coupling`, `RootSimulator`). The tournament tree with its early exit, routing through couplings nested
to any depth, the time bookkeeping of every message, and the root loop. Every run of the nested
simulator is a run of a flat simulator over the flattened connection table, down to the model chosen on
ties; the table has a row for each way that connections lead from one atomic model to another, and each
model is due at its last event plus its own time advance. Time is exact and in whole ticks, any number of them to the second.

**Path finding** (`Dijkstra`, `LinkPaths`, `Reachability`). Shortest paths over hash tables, the chain of
links made from a walk, and the depth-first check that is run before.

**Expressions** (`MathExpr`, `MathMachine`, `Differentiation`). Compilation to stack code and the machine
that runs it, with functions that borrow their parameters' variables; symbolic differentiation and
substitution through simplifying constructors, over exact reals; the derivative is that of what the
machine computes, and simplified trees stay simplified.

**Queues and flow control** (`NetworkQueue`, `WrrScheduler`, `DcmApp`, `DcmService`). A byte-bounded queue
feeding a link, a weighted round robin, and the credit distributor.

**Parser** (`Syntax`, `Parser`, `ParserProofs`, `ParseTree`, `ParseErrors`). The recursive-descent parser
over mutable state, its grammar as functions, and the exact language it accepts with the meaning it gives
each text. The flat parse tree is the pre-order of trees of the grammar, and a syntax error stays one
however the text goes on.

## What the proofs found

Where the code falls short of what it is for, the exact condition is proved and a lemma or method shows an
input.

- A tournament tree whose earliest time is past the padding time 1e100 can name child 0 instead;
  `ChildHeaps.NextIsEarliest` says exactly when, `ChildHeaps.PastPadding` shows three such children. Idle
  models do use larger times. Where the earliest time is 1e100 itself, two complete trees for the same
  times can differ (`ChildHeaps.TieWithPadding`).
- The predecessor table of `Dijkstra` marks "no predecessor" by 0, so in a graph with a node equal to 0
  the path is cut at it: `Dijkstra.new(0, 1, [[0, 1, 1]]).shortest_path` is `[1]`
  (`ShortestPaths.ZeroCutsThePath`). The path is a best walk if and only if no zero stands before the end
  on the walk found (`ShortestPaths.Dijkstra.Run`), in particular whenever no row leaves a zero other than
  the end; never when the start is a zero and another node that can be reached is asked for
  (`ShortestPaths.GraphDecides`). The distances are right all the same. The flow generator's nodes are
  topology objects, none of them equal to 0.
- `Dijkstra#cost` at the start node itself is right if and only if the start has no positive self-loop
  (`ShortestPaths.Dijkstra.Cost`, `ShortestPaths.SelfLoopCost`). The search raises exactly when the start
  is no node of the graph, or has no way out although there are other nodes (`ShortestPaths.Dijkstra.Run`,
  `ShortestPaths.RaisesWithoutWayOut`); a later row of the graph replaces an earlier one.
- Restoring the parameters of a called function gives every variable its old value back if and only if
  no parameter is listed twice (`MathMachine.RestoredIffDistinct`, `MathMachine.RepeatedParameter`).
- The arc tangent of a call leaves the stack's array if and only if the called function's value is a list:
  the call pushes one value and the instruction chosen takes two (`MathExpr.AtanOfCall`).
- `HaikunetIntent` has no `action=`. The parser writes it for every intent that is followed by anything,
  an action or another declaration, so parsing raises. A program whose references are in order parses
  back if and only if its only intent is the last declaration and has no action
  (`ParserProofs.RoundTrip`, `ParserProofs.ActionRaises`). Besides, a trailing comma in a parameter list
  and a definition cut short after `:=` at the very end are accepted (`ParserProofs.AcceptedLanguage`).
- A weighted round robin request that finds every queue empty gives the first queue to get packets,
  whichever it is, the weight of queue 0 (`RoundRobin.KeptRequest`).
- When `DcmApp` has sent the requests that an input caused, credits can lie idle although a waiting
  transaction fits, until the next input. `DataCollection.IdleCredits` says exactly when, for every
  reachable state and input: if and only if a queued session has a second transaction that fits what the
  input left (or the input handed out nothing and a need fitted before). `DataCollection.IdleCreditsExist`
  gives a run. The second round of `distributeCredits` never selects anybody.

## Model

| member | source | states |
|---|---|---|
| TcpSending.TcpSender.constructor | debug/atomics/ATLAS-TDAQ/TcpSender.cpp:3-44 | a new sender has an empty buffer, window 1, slow start and no alarm, and satisfies the sender invariant |
| TcpSending.TcpSender.NextPacketPendingForward | debug/atomics/ATLAS-TDAQ/TcpSender.cpp:238-249 | the find_if search stops at the first packet that is not on the fly |
| TcpSending.TcpSender.UnAckPackets | debug/atomics/ATLAS-TDAQ/TcpSender.cpp:262-266 | the count of sent, flying, unacknowledged packets |
| TcpSending.TcpSender.SetNextSigma | debug/atomics/ATLAS-TDAQ/TcpSender.cpp:200-232 | forward at once if the window has room and a packet is idle, except the last retransmitted packet at window 2; otherwise wait for the timeout, for ever when nothing is buffered |
| TcpSending.TcpSender.ValidateReceivedAck | debug/atomics/ATLAS-TDAQ/TcpSender.cpp:352-390 | the first sent, unacknowledged packet with the acknowledged number, or the end |
| TcpSending.TcpSender.SetNewCAAfterAckReceived | debug/atomics/ATLAS-TDAQ/TcpSender.cpp:297-332 | window and phase after an accepted acknowledgement |
| TcpSending.TcpSender.BufferPacket | debug/atomics/ATLAS-TDAQ/TcpSender.cpp:83-91 | the packet gets the next number and goes last, not sent |
| TcpSending.TcpSender.ReceiveAck | debug/atomics/ATLAS-TDAQ/TcpSender.cpp:92-117 | accepted exactly when the first sent packet with that number is the front, which leaves; else nothing changes |
| TcpSending.TcpSender.Dext | debug/atomics/ATLAS-TDAQ/TcpSender.cpp:69-121 | a packet is numbered and buffered; an acknowledgement removes the front packet only, anything else is ignored; the sender invariant is kept |
| TcpSending.TcpSender.Lambda | debug/atomics/ATLAS-TDAQ/TcpSender.cpp:123-194 | what is emitted, how flags and window change on forwarding and on a timeout, and when the model throws |
| TcpSending.TcpSender.Dint | debug/atomics/ATLAS-TDAQ/TcpSender.cpp:49-67 | the alarm is set again |
| TcpSending.ExternalKeepsInv | debug/atomics/ATLAS-TDAQ/TcpSender.cpp:69-121 | every input keeps numbering, layering, window bound and schedule |
| TcpSending.FireKeepsInv | debug/atomics/ATLAS-TDAQ/TcpSender.cpp:123-194 | when the alarm goes off there is a packet to emit (no "invalid model state"), it is the first idle one or the front, and the invariant is kept |
| TcpSending.FireBuffer | debug/atomics/ATLAS-TDAQ/TcpSender.cpp:123-194 | a step keeps the buffer's packets and changes exactly the flags of the emitted one, and grounds all on a timeout |
| TcpSending.InvShapes | debug/atomics/ATLAS-TDAQ/TcpSender.cpp:83-191 | the sender invariant gives the shape of the buffer that the protocol relies on |
| TcpSending.AvoidanceGrowth | debug/atomics/ATLAS-TDAQ/TcpSender.cpp:313-326 | after k accepted acknowledgements in congestion avoidance the window is the one number between two triangular bounds (in outline section 3.1 of RFC 5681; one more acknowledgement per step than there) |
| TcpSending.SlowStartGrowth | debug/atomics/ATLAS-TDAQ/TcpSender.cpp:301-312 | after a timeout the window grows by one per acknowledgement up to half the lost window, with the exact point where congestion avoidance starts |
| TcpWindow.FiringWindow | debug/atomics/ATLAS-TDAQ/TcpSender.cpp:151-185 | a timeout leaves window 1, half the old window as threshold and slow start; any other sending leaves the window alone |
| TcpWindow.InputWindow | debug/atomics/ATLAS-TDAQ/TcpSender.cpp:92-117 | only an acknowledgement of the oldest sent packet moves the window and drops that packet: by one in slow start, in congestion avoidance when no more are due, with the threshold where the phase changes |
| TcpWindow.AfterTimeout | debug/atomics/ATLAS-TDAQ/TcpSender.cpp:297-350 | over every run of the sender from a timeout to the next, k such acknowledgements make the window k + 1 up to half the lost one (at least 2), and from there the one number between two triangular bounds, whatever is sent and taken in between |
| TcpWindow.AlwaysPlanned | debug/atomics/ATLAS-TDAQ/TcpSender.cpp:200-232 | in every state of every run it sends at once exactly when fewer packets are in the air than the window holds and one is not, except the only one, sent before, under a window of 2 |
| TcpWindow.OldestWasSent | debug/atomics/ATLAS-TDAQ/TcpSender.cpp:151-185 | a timeout never sends a packet for the first time |
| TcpWindow.CountersAreRight | debug/atomics/ATLAS-TDAQ/TcpSender.cpp:123-185 | over every run each waiting packet was sent exactly as often as its retransmission counter says |
| TcpReceiving.BufferInfo.constructor | debug/atomics/ATLAS-TDAQ/TcpReceiverBuffer.h:41-46 | a source's buffer starts with its first packet and expects number 0 |
| TcpReceiving.BufferInfo.AddPacket | debug/atomics/ATLAS-TDAQ/TcpReceiverBuffer.h:50-65 | a packet already handed over or already buffered is dropped, any other one is filed under its number |
| TcpReceiving.FirstCopyStays | debug/atomics/ATLAS-TDAQ/TcpReceiverBuffer.h:50-65 | of several packets with one number the first to arrive is kept |
| TcpReceiving.BufferInfo.RemovePacket | debug/atomics/ATLAS-TDAQ/TcpReceiverBuffer.h:67-72 | the packet leaves and the next number is expected |
| TcpReceiving.BufferInfo.ShouldSendNextPacket | debug/atomics/ATLAS-TDAQ/TcpReceiverBuffer.h:74-77 | true exactly when the smallest buffered number is the expected one |
| TcpReceiving.TcpReceiverBuffer.GetNextPacketToSend | debug/atomics/ATLAS-TDAQ/TcpReceiverBuffer.cpp:86-96 | the packet of the lowest source whose buffer is ready, none exactly when no buffer is |
| TcpReceiving.TcpReceiverBuffer.SetNextSigma | debug/atomics/ATLAS-TDAQ/TcpReceiverBuffer.cpp:80-84 | armed exactly when some buffer is ready |
| TcpReceiving.TcpReceiverBuffer.AddPacketToBuffer | debug/atomics/ATLAS-TDAQ/TcpReceiverBuffer.cpp:54-65 | the packet goes to its source's buffer, made if needed; other buffers are untouched |
| TcpReceiving.TcpReceiverBuffer.Dext | debug/atomics/ATLAS-TDAQ/TcpReceiverBuffer.cpp:24-42 | the packet is filed and the model is armed exactly when something is ready |
| TcpReceiving.TcpReceiverBuffer.Lambda | debug/atomics/ATLAS-TDAQ/TcpReceiverBuffer.cpp:44-78 | the first ready source hands over its expected packet and only its buffer changes |
| TcpReceiving.TcpReceiverBuffer.Dint | debug/atomics/ATLAS-TDAQ/TcpReceiverBuffer.cpp:19-22 | the model is armed again exactly when something is ready |
| TcpReceiving.TcpAck.Dext | debug/atomics/ATLAS-TDAQ/TcpAck.cpp:29-46 | the packet is queued and the model is armed |
| TcpReceiving.TcpAck.Lambda | debug/atomics/ATLAS-TDAQ/TcpAck.cpp:48-67 | the oldest packet is answered with its own number and leaves the queue |
| TcpReceiving.TcpAck.Dint | debug/atomics/ATLAS-TDAQ/TcpAck.cpp:20-27 | armed exactly while packets wait |
| TcpProtocol.StepInv | debug/atomics/ATLAS-TDAQ/TcpSender.cpp:83-117 | every step of senders, network, acknowledger and receiver keeps the system invariant |
| TcpProtocol.ReliableDelivery | debug/atomics/ATLAS-TDAQ/TcpReceiverBuffer.h:50-77 | over every run with loss, duplication and reordering each source's forwarded packets are a prefix of the packets given, numbered 0, 1, 2, ...; every packet the sender erased is forwarded or waits in the receive buffer |
| TcpProtocol.SenderShape | debug/atomics/ATLAS-TDAQ/TcpSender.cpp:83-191 | in every state a run of the whole protocol reaches, buffered numbers are consecutive up to the last one handed out, flying packets are a prefix of sent ones and these of the buffer, they fit the window, and forwarding implies an idle packet |
| TcpLiveness.ResendFront | debug/atomics/ATLAS-TDAQ/TcpSender.cpp:151-185 | from every state with a waiting packet the sender alone gets its oldest packet onto the wire again |
| TcpLiveness.AdvanceOne | debug/atomics/ATLAS-TDAQ/TcpSender.cpp:92-117 | from every such state, even with all in the network lost, a bounded run without losses shortens the sender's buffer by one |
| TcpLiveness.AdvanceSoon | debug/atomics/ATLAS-TDAQ/TcpSender.cpp:123-194 | when the oldest packet is on the wire or not in the air, one firing at most, one delivery, the queued answers and one acknowledgement shorten the buffer, whatever the window |
| TcpLiveness.AlwaysDrains | debug/atomics/ATLAS-TDAQ/TcpSender.cpp:123-249 | from every reachable state a run without losses empties every sender and delivers everything given, for all sources |
| ChildHeaps.CeilLog2Is | debug/engine/coupling.cpp:200 | the number of levels is the rounded-up logarithm |
| ChildHeaps.ChildHeap.Create | debug/engine/coupling.cpp:196-235 | builds a tournament tree over the children's times, padding included |
| ChildHeaps.ChildHeap.PlayLevel | debug/engine/coupling.cpp:217-232 | every cell of a level is the winner of its pair below: the smaller time, then the smaller child |
| ChildHeaps.ChildHeap.Update | debug/engine/coupling.cpp:237-263 | after a child's time changes the tree is the tournament of the new times, although the walk stops early |
| ChildHeaps.ChildHeap.Next | debug/engine/coupling.cpp:276-281 | the child named at the top, -1 without children |
| ChildHeaps.CellCovers | debug/engine/coupling.cpp:217-232 | every cell names the lowest child with the smallest time among those below it, or is padding |
| ChildHeaps.NextIsEarliest | debug/engine/coupling.cpp:276-281 | next is the lowest child with the smallest time, if and only if that time is below 1e100, the tree has no padding, or the child is the first; for any number of children |
| ChildHeaps.PastPadding | debug/engine/coupling.cpp:211-213 | three children past 1e100 for which the tree names child 0 although child 1 is the earliest |
| ChildHeaps.TieWithPadding | debug/engine/coupling.cpp:217-263 | three times with the earliest at 1e100 that have two complete trees, one naming child 0 and one naming child 2 |
| ChildHeaps.ScanFinds | debug/engine/coupling.cpp:115-123 | what the commented-out scan finds |
| ChildHeaps.TreeAgreesWithScan | debug/engine/coupling.cpp:113-134 | tree and scan give the same child whenever the scan finds one |
| ChildHeaps.SiblingsDiffer | debug/engine/coupling.cpp:256-259 | two sibling cells naming the same child are both padding, so comparing names is enough |
| ChildHeaps.ParentHolds | debug/engine/coupling.cpp:256-259 | a parent that names the sibling's child holds the sibling's time too |
| ChildHeaps.EarlyExit | debug/engine/coupling.cpp:242-262 | stopping when the parent already names the winning sibling leaves a complete tournament |
| Routing.OutputsAgree | debug/engine/coupling.cpp:176-182 | an atomic output leaves a coupling by a port exactly as often as the flattened outputs of that port list it |
| Routing.RoutingIsFlat | debug/engine/coupling.cpp:98-108 | for a hierarchy of any depth, one output followed up, across and down reaches each atomic input exactly as often as the flattened connection table joins the two |
| Routing.DownIsWays | debug/engine/coupling.cpp:98-108 | an input port reaches each atomic input as often as external input connections lead there, one from the sink port of the other |
| Routing.FeedsIsWays | debug/engine/coupling.cpp:176-182 | an atomic output reaches an output port as often as external output connections lead there |
| Routing.TableIsWays | debug/engine/coupling.cpp:161-183 | the flattened table has one row for each way up, across and down, counted on the connections alone |
| Routing.EmitIsWays | debug/engine/coupling.cpp:78-183 | an output followed level by level reaches each atomic input exactly as often as connections lead there |
| Routing.BuildIndex | debug/engine/coupling.cpp:63-66 | reading the index gives for every child and port the same connections, in the same order, as scanning all internal connections |
| Kernel.Init | debug/engine/coupling.cpp:60-70 | after initialisation at time t every model has had its last event, none is overdue, and every coupling has cached its next child |
| Kernel.AtomExternal | debug/engine/simulator.cpp:79-85 | an external transition, applied only with tl <= t <= tn, sets tl to t and the next event not before it; which, `KernelProofs.ExternalScheduled` and `FlatSimulation.StepIsFlatStep` say |
| Kernel.AtomInternal | debug/engine/simulator.cpp:71-77 | an internal transition, applied only with tl <= t = tn, likewise |
| Kernel.External | debug/engine/coupling.cpp:98-108 | an input at a consistent coupling reaches its sinks in time and leaves it consistent |
| Kernel.Spread | debug/engine/coupling.cpp:78-90 | during the output phase the active chain stays due and all else stays consistent |
| Kernel.Internal | debug/engine/coupling.cpp:92-96 | the transition phase makes the whole hierarchy consistent again |
| Kernel.Step | debug/engine/root_simulator.cpp:68-72 | a whole step keeps the hierarchy consistent, so every transition in every run is applied with tl <= t <= tn |
| Kernel.BecomesDue | debug/engine/root_simulator.cpp:52 | at the root's next-event time exactly the cached chain is due and nothing is late |
| Kernel.FreshLater | debug/engine/simulator.cpp:79-85 | a consistent hierarchy stays consistent until its next-event time |
| Kernel.TreePicks | debug/engine/coupling.cpp:113-114 | the tree's answer is a child with the smallest next-event time, the lowest below 1e100 |
| KernelProofs.TnIsMinimum | debug/engine/coupling.cpp:110-137 | a coupling's tn is at most that of every model below it (times past 1e100 are not told apart) |
| KernelProofs.ChainAttains | debug/engine/coupling.cpp:110-137 | the chain of transition children ends at a model that attains it |
| KernelProofs.InitScheduled | debug/engine/simulator.cpp:45-52 | after initialisation every atomic model is due at its last event plus its time advance, an empty coupling after 1e21 seconds |
| KernelProofs.ExternalScheduled | debug/engine/simulator.cpp:79-85 | an external event keeps tn = tl + ta in every atomic model |
| KernelProofs.StepScheduled | debug/engine/simulator.cpp:71-85 | a whole step keeps tn = tl + ta in every atomic model |
| KernelProofs.InitAt | debug/engine/coupling.cpp:60-70 | every atomic model starts in its own initial state, due after its time advance |
| KernelProofs.SpreadAt | debug/engine/coupling.cpp:161-183 | in the output phase each atomic model gets exactly the events routing lists for it, in that order |
| KernelProofs.InternalAt | debug/engine/coupling.cpp:92-96 | in the transition phase only the model at the end of the chain moves |
| KernelProofs.StepIsFlat | debug/engine/coupling.cpp:78-108 | one step, seen at each atomic model: the due one takes its internal transition, any other exactly the external transitions its connections bring, all at time tn |
| KernelProofs.InputsAreRows | debug/engine/coupling.cpp:161-183 | those events are the rows of the flattened table, one for one |
| FlatSimulation.Ordered | debug/engine/coupling.cpp:226-230 | the order by which ties are decided tells any two atomic models apart |
| FlatSimulation.ChainIsFirst | debug/engine/coupling.cpp:110-137 | the chain of cached children ends at the earliest atomic model, on ties the first in the order of the paths |
| FlatSimulation.StepIsFlatStep | debug/engine/root_simulator.cpp:68-72 | a step of the nested simulator is the flat step of the model the flat simulator chooses: its internal transition after the time it waited, and at each model reached one external transition after the other, each due after its new time advance |
| FlatSimulation.RunKeepsSchedule | debug/engine/root_simulator.cpp:50-84 | in every state of every run each model is due at its last event plus its time advance |
| FlatSimulation.RunIsFlatRun | debug/engine/root_simulator.cpp:50-84 | every run of the nested simulator, of any length, is a run of the flat one: the model that moves, the models reached and how many events each gets come from the flattened table; the order of several events at one model is the one in which the nested routing emits them |
| FlatSimulation.FlatRunIsUnique | debug/engine/root_simulator.cpp:50-84 | the flat simulator has no choice: two runs of the same length from the same models end alike |
| AtomicSimulation.Simulator.IMessage | debug/engine/simulator.cpp:45-52 | elapsed time zero, last event now, next event after the model's time advance |
| AtomicSimulation.Simulator.LambdaMessage | debug/engine/simulator.cpp:55-57 | the model's output |
| AtomicSimulation.Simulator.DintMessage | debug/engine/simulator.cpp:71-77 | the new state after the time since the last event, and the next event after its time advance, as in the kernel |
| AtomicSimulation.Simulator.DextMessage | debug/engine/simulator.cpp:79-85 | the new state after the time since the last event, and the next event after its time advance, as in the kernel |
| CouplingObject.Coupling.constructor | debug/engine/coupling.cpp:60-70 | index, children and tree agree |
| CouplingObject.Coupling.Ta | debug/engine/coupling.cpp:110-137 | caches the child the tree picks and its next-event time |
| CouplingObject.Coupling.IMessage | debug/engine/simulator.cpp:45-52 | the coupling's times at initialisation; its value is the kernel's, up to the choice of a child where nothing is due before 1e100 |
| CouplingObject.Coupling.Dext | debug/engine/coupling.cpp:98-108 | the loop over the external input connections delivers to the sinks in order, with the tree kept up to date |
| CouplingObject.Coupling.PropagateInside | debug/engine/coupling.cpp:166-175 | the loop over the index delivers along the same connections, in the same order, as scanning all of them |
| CouplingObject.Coupling.Propagate | debug/engine/coupling.cpp:161-183 | siblings get the event and the ports towards the father are exactly those of the external output connections |
| CouplingObject.Coupling.Lambda | debug/engine/coupling.cpp:78-90 | the active child's output, propagated for each port it leaves it by, gives the children and outputs of the kernel's output phase, and the whole value and ports of Spread |
| CouplingObject.Coupling.Dint | debug/engine/coupling.cpp:92-96 | the active child takes its transition and the tree is updated |
| CouplingObject.Coupling.DextMessage | debug/engine/simulator.cpp:79-85 | the times around an external event, and the next child chosen again; a consistent coupling's value becomes what the kernel's External makes of it, up to the choice of a child where nothing is due before 1e100 |
| CouplingObject.Coupling.DintMessage | debug/engine/simulator.cpp:71-77 | the times around an internal event, and the next child chosen again; a due coupling's value becomes what the kernel's Internal makes of it, up to the same choice |
| CouplingObject.ChosenIsCached | debug/engine/coupling.cpp:110-137 | what the object caches is what the kernel's value caches, whenever something is due before 1e100 |
| RootSimulation.RootSimulator.constructor | debug/engine/root_simulator.cpp:35-48 | initialised at ti, consistent, counters at zero |
| RootSimulation.RootSimulator.Step | debug/engine/root_simulator.cpp:50-84 | the clock goes to the next event and never back, steps at one time are counted, and the run ends exactly past tf or past the limit |
| RootSimulation.RootSimulator.Run | debug/engine/root_simulator.cpp:114-116 | the loop ends for every model, after exactly one kernel step for each time it took; its times never decrease, stay within tf, and none occurs more than maxSteps + 1 times |
| ShortestPaths.Dijkstra.NumberOfVertices | lib/utils/dijkstra_algorithm.rb:27-36 | the nodes are the endpoints of the rows, each once |
| ShortestPaths.Dijkstra.ReadAndInit | lib/utils/dijkstra_algorithm.rb:88-124 | the road table holds for every pair the weight of its last row, zero on the diagonal, else infinity |
| ShortestPaths.Dijkstra.FirstRow | lib/utils/dijkstra_algorithm.rb:58-61 | first distances and predecessors, and when reading them raises |
| ShortestPaths.Dijkstra.Nearest | lib/utils/dijkstra_algorithm.rb:66-73 | the nearest unvisited node at finite distance, or the node kept from the round before |
| ShortestPaths.Dijkstra.RelaxAll | lib/utils/dijkstra_algorithm.rb:77-84 | after the loop every unvisited node has its best distance through the visited ones; a repeated node changes nothing |
| ShortestPaths.Dijkstra.Round | lib/utils/dijkstra_algorithm.rb:65-85 | a round visits one more node or finds that nothing else can be reached, and raises only without a way out of the start |
| ShortestPaths.Dijkstra.GetShortestPathPerVertex | lib/utils/dijkstra_algorithm.rb:54-86 | all distances are final; it raises exactly when the start is no node, or has no way out although there are others |
| ShortestPaths.Dijkstra.RoadTo | lib/utils/dijkstra_algorithm.rb:49-52 | the predecessor recursion ends and appends the walk to the node: all of it when no zero stands before the node, else what comes behind the last zero |
| ShortestPaths.Dijkstra.ShortestPath | lib/utils/dijkstra_algorithm.rb:44-47 | the path gets that walk to the end, cut at a node equal to 0; it does not return exactly when the end is no node |
| ShortestPaths.Dijkstra.Cost | lib/utils/dijkstra_algorithm.rb:39-41 | the length of a shortest walk, infinite when there is none; at the start itself if and only if it has no positive self-loop |
| ShortestPaths.Dijkstra.Run | lib/utils/dijkstra_algorithm.rb:10-25 | for every graph with non-negative weights: when it returns, and then what 0 as a mark leaves of a walk from start to end no longer than any other; the path is such a walk if and only if no zero stands before its end, in particular when no row leaves a zero other than the end, and if and only if it has exactly the length that cost will give; the tables are solved |
| ShortestPaths.PathAndCost | lib/utils/dijkstra_algorithm.rb:39-47 | the path and the cost of one object: the cost is the shortest distance; the path is a walk of exactly that cost (or only the end and infinity) if and only if it is a best walk, which it is if and only if no zero stands before the end |
| ShortestPaths.CutWalk | lib/utils/dijkstra_algorithm.rb:49-52 | the recursion that stops at a predecessor 0 keeps a best walk whole, and a best walk, if and only if no zero stands before its end |
| ShortestPaths.CutIsSuffix | lib/utils/dijkstra_algorithm.rb:49-52 | what is left is the part behind the last zero before the end |
| ShortestPaths.GraphDecides | lib/utils/dijkstra_algorithm.rb:44-52 | from the graph alone: a best walk when no best walk meets a zero, none when all do, none when the start is a zero and another reachable node is asked for |
| ShortestPaths.ZeroCutsThePath | lib/utils/dijkstra_algorithm.rb:49-52 | an input with a node equal to 0 whose path lacks its start |
| ShortestPaths.TraceIsDistinct | lib/utils/dijkstra_algorithm.rb:49-52 | following predecessors goes through no node twice |
| ShortestPaths.BestWalkCosts | lib/utils/dijkstra_algorithm.rb:39-47 | a walk no longer than any other has the shortest distance as its length |
| ShortestPaths.RaisesWithoutWayOut | lib/utils/dijkstra_algorithm.rb:63-75 | an input for which the construction raises: the only row leads back to the start |
| ShortestPaths.SelfLoopCost | lib/utils/dijkstra_algorithm.rb:58-61 | an input for which the start's own entry is not its distance |
| ShortestPaths.OneWeightPerPair | lib/utils/dijkstra_algorithm.rb:118-123 | with one weight per ordered pair the weights in force are the rows |
| ShortestPaths.Crossing | lib/utils/dijkstra_algorithm.rb:66-85 | every walk out of the visited nodes passes an unvisited node at no less than its tentative distance |
| ShortestPaths.NearestIsFinal | lib/utils/dijkstra_algorithm.rb:66-75 | the nearest unvisited node is at its final distance |
| ShortestPaths.TraceIsWalk | lib/utils/dijkstra_algorithm.rb:49-52 | following predecessors gives a walk of exactly the recorded distance |
| ShortestPaths.AllDistances | lib/utils/dijkstra_algorithm.rb:54-86 | at the end every recorded distance is the shortest, infinite exactly where there is no walk |
| ShortestPaths.OwnDistance | lib/utils/dijkstra_algorithm.rb:58-61 | the start's own entry is its distance if and only if it has no positive self-loop |
| LinkPaths.FindHost | lib/code_generators/debug_code_generator.rb:111-112 | the first host with that address, or none |
| LinkPaths.FindLink | lib/code_generators/debug_code_generator.rb:121 | the first link between the two elements |
| LinkPaths.Graph | lib/code_generators/debug_code_generator.rb:106-109 | one row of weight 1 per link |
| LinkPaths.LinksAlong | lib/code_generators/debug_code_generator.rb:119-122 | a contiguous chain of existing links along the walk, one per hop |
| LinkPaths.PathBetween | lib/code_generators/debug_code_generator.rb:114-122 | exactly when the search returns, and then a chain with the fewest links; the empty path where there is no chain |
| LinkPaths.FindPathBetween | lib/code_generators/debug_code_generator.rb:102-125 | the same between the elements of the first hosts with the two addresses; a path is returned whenever two different elements are joined by links at all |
| LinkPaths.WeightIsLink | lib/code_generators/debug_code_generator.rb:106-109 | a weight is in force exactly where there is a link, and it is 1 |
| LinkPaths.WalkHops | lib/code_generators/debug_code_generator.rb:106-116 | the length of a walk is its number of hops |
| LinkPaths.ChainWalk | lib/code_generators/debug_code_generator.rb:119-122 | every chain of links is a walk with as many hops |
| LinkPaths.WalkChain | lib/code_generators/debug_code_generator.rb:119-122 | every walk has a chain of as many links |
| Reachability.Search.ReachablesFrom | lib/semantic_rules_checker.rb:172-180 | the recursion ends on every finite network, cyclic or not, and adds only and all that can be reached past the visited elements |
| Reachability.Reachables | lib/semantic_rules_checker.rb:134 | started with an empty set it gives exactly the reachable elements |
| Reachability.CheckPathsExist | lib/semantic_rules_checker.rb:132-136 | no error means every source reaches every destination, an error names a pair without a path |
| Reachability.CheckedMeansChained | lib/semantic_rules_checker.rb:114-138 | an element is reachable exactly when a chain of links leads there, and then the path search returns |
| MathExpr.CodePushesValues | debug/atomics/continuous/mathexpr.cpp:1049-1060 | the code of a tree pushes the values of its members whatever follows, within its own share of the stack |
| MathExpr.CodeIsCorrect | debug/atomics/continuous/mathexpr.cpp:1144-1208 | for any meaning of the operators the compiled code leaves exactly the tree's values on a stack of its own size |
| MathExpr.ListMembers | debug/atomics/continuous/mathexpr.cpp:752-756 | a list of n single values has n members, and its code leaves n values |
| MathExpr.AtanOfTwo | debug/atomics/continuous/mathexpr.cpp:1195-1196 | for single values a and b the code of atan(a, b) ends in the arc tangent of two and gives it of their values, in that order |
| MathExpr.AtanOfOne | debug/atomics/continuous/mathexpr.cpp:1195-1196 | the code of the arc tangent of a tree that is not several values ends in the arc tangent of one and gives it of its value |
| MathExpr.AtanOfCall | debug/atomics/continuous/mathexpr.cpp:1195-1196 | of a call, it leaves the stack if and only if the called function's value is a list |
| MathMachine.BuildCode | debug/atomics/continuous/mathexpr.cpp:1144-1208 | the filled arrays are the tree's code, values, stack size and functions |
| MathMachine.BCDouble | debug/atomics/continuous/mathexpr.cpp:1062-1092 | both codes one after the other, then the instruction, stack sizes added |
| MathMachine.BCSimple | debug/atomics/continuous/mathexpr.cpp:1094-1142 | the code, then the instruction and the function called, if any |
| MathMachine.Machine.SetParams | debug/atomics/continuous/mathexpr.cpp:167-174 | each parameter's variable is saved and set, in order |
| MathMachine.Machine.RestoreParams | debug/atomics/continuous/mathexpr.cpp:176-181 | the saved values are written back, in the same order |
| MathMachine.Machine.FunctionVal | debug/atomics/continuous/mathexpr.cpp:167-181 | a call gives the body's value at the arguments and leaves every variable as it was |
| MathMachine.Machine.ApplyRFunc | debug/atomics/continuous/mathexpr.cpp:1049-1050 | the function's value takes the place of its arguments on the stack |
| MathMachine.Machine.Operate | debug/atomics/continuous/mathexpr.cpp:1022-1048 | an operator's value takes the place of its operands on the stack |
| MathMachine.Machine.Instruction | debug/atomics/continuous/mathexpr.cpp:1055-1058 | each instruction does to arrays and positions what the code's meaning says, within bounds |
| MathMachine.Machine.Val | debug/atomics/continuous/mathexpr.cpp:1049-1060 | running the compiled code equals evaluating the tree, the stack stays inside its array, and every variable keeps its value |
| MathMachine.RestoredIffDistinct | debug/atomics/continuous/mathexpr.cpp:167-181 | variables get their old values back for all arguments if and only if no parameter is listed twice |
| MathMachine.CallValue | debug/atomics/continuous/mathexpr.cpp:165-182 | the code of a call leaves a native function's value at its one argument, or the body's value with each parameter's variable at its argument and all others as they were |
| MathMachine.RepeatedParameter | debug/atomics/continuous/mathexpr.cpp:167-181 | a call that lists one parameter twice leaves its first argument in the variable |
| Differentiation.NegValue | debug/atomics/continuous/mathexpr.cpp:258-263 | the simplifying negation negates the value |
| Differentiation.SumValue | debug/atomics/continuous/mathexpr.cpp:272-292 | the simplifying sum and difference, which call each other, end and give the sum and difference of the values |
| Differentiation.ProductValue | debug/atomics/continuous/mathexpr.cpp:294-304 | the simplifying product gives the product of the values |
| Differentiation.DiffPolynomial | debug/atomics/continuous/mathexpr.cpp:786-796 | the derivative of a polynomial tree is one |
| Differentiation.DiffTidy | debug/atomics/continuous/mathexpr.cpp:258-304 | the derivative of a simplified tree is simplified: no negative literals, signs outside, no two numbers to compute, no 0 added, no 0 or 1 multiplied |
| Differentiation.MissedBound | debug/atomics/continuous/mathexpr.cpp:786-796 | at every step h with abs(h) <= 1 the linear estimate with the derivative is off by at most the tree's curvature bound times the square of h |
| Differentiation.DiffIsDerivative | debug/atomics/continuous/mathexpr.cpp:786-796 | Diff is the derivative: one constant, the same for all such h, bounds that error by its multiple of the square of h |
| Differentiation.ValueIsEval | debug/atomics/continuous/mathexpr.cpp:1052-1060 | under the standard meaning of +, - and * a polynomial tree's value is what the compiled code computes |
| Differentiation.DiffOfVal | debug/atomics/continuous/mathexpr.cpp:786-796 | what Val computes from the code of Diff is the derivative, with one constant for all steps, of what it computes from the code of the tree as one variable's cell moves |
| Differentiation.SubstituteShape | debug/atomics/continuous/mathexpr.cpp:775-784 | substitution keeps operands single values and argument lists their length |
| Differentiation.SubstituteValue | debug/atomics/continuous/mathexpr.cpp:775-784 | for any operators, the value after substitution is the value with the variable at the expression's value, provided no called function reads the variable itself |
| Queueing.NetworkQueue.constructor | debug/atomics/PhaseI/NetworkQueue.cpp:18-33 | an empty queue that waits for the server's first request; -1 stands for the largest capacity, other values are compared unsigned |
| Queueing.NetworkQueue.Dext | debug/atomics/PhaseI/NetworkQueue.cpp:47-83 | acceptance by bytes, requests, the double-request error, and the next alarm |
| Queueing.NetworkQueue.Lambda | debug/atomics/PhaseI/NetworkQueue.cpp:85-98 | the oldest packet when the server waits, else the error |
| Queueing.NetworkQueue.Dint | debug/atomics/PhaseI/NetworkQueue.cpp:39-46 | the packet leaves and the queue waits for the next request |
| Queueing.Link.constructor | debug/atomics/PhaseI/Link.cpp:18-28 | the link asks for its first packet at once |
| Queueing.Link.Dext | debug/atomics/PhaseI/Link.cpp:54-72 | a packet is taken for its bits over the capacity plus the delay, and only by an idle link |
| Queueing.Link.Dint | debug/atomics/PhaseI/Link.cpp:37-52 | the link is idle again; the error when it already was |
| Queueing.Link.Lambda | debug/atomics/PhaseI/Link.cpp:74-97 | the packet carried, the first request, or the error |
| Queueing.ReplayInv | debug/atomics/PhaseI/NetworkQueue.cpp:39-119 | every run of arrivals and internal events, in any order of ties, keeps the handshake invariant and throws nothing |
| Queueing.LindleyRecursion | debug/atomics/PhaseI/Link.cpp:37-95 | for a link of any capacity and delay, in every run no error is reached and the k-th packet out is the k-th accepted one, at max(arrival, previous departure) + bits/capacity + delay |
| Queueing.ServiceIs | debug/atomics/PhaseI/Link.cpp:24-67 | multiplying by the inverted capacity and adding the delay is bits over capacity plus delay |
| Queueing.BytesHoldBits | debug/atomics/PhaseI/NetworkQueue.cpp:58-64 | a packet counts as the fewest whole bytes that hold its bits |
| Queueing.NoneForgotten | debug/atomics/PhaseI/NetworkQueue.cpp:58-64 | over every run the packets accepted and those counted as discarded are all that came |
| Queueing.AcceptedWhenItFits | debug/atomics/PhaseI/NetworkQueue.cpp:58-64 | a packet is accepted exactly when its bytes fit strictly beside those of the packets that the recursion has not let the link begin on |
| Queueing.Drains | debug/atomics/PhaseI/NetworkQueue.cpp:76-80 | from every reachable state the two models alone send everything accepted, in a known number of events |
| RoundRobin.WRRScheduler.constructor | debug/atomics/PhaseI/WRRScheduler.cpp:31-36 | all sizes zero, queue 0 with its full weight, no request delayed |
| RoundRobin.WRRScheduler.Init | debug/atomics/PhaseI/WRRScheduler.cpp:20-27 | refused exactly when the number of weights is not the number of queues |
| RoundRobin.WRRScheduler.GetNextWRRIndex | debug/atomics/PhaseI/WRRScheduler.cpp:149-164 | the two searches as one function of the sizes, the position and the weight left |
| RoundRobin.WRRScheduler.DextDequeRequest | debug/atomics/PhaseI/WRRScheduler.cpp:124-147 | the chosen queue and its weight, or the reset and the delayed request |
| RoundRobin.WRRScheduler.DextQueueSize | debug/atomics/PhaseI/WRRScheduler.cpp:91-122 | the new size, the index error, and a delayed request served when packets come |
| RoundRobin.WRRScheduler.Dext | debug/atomics/PhaseI/WRRScheduler.cpp:49-78 | dispatch on ports and the errors |
| RoundRobin.WRRScheduler.Lambda | debug/atomics/PhaseI/WRRScheduler.cpp:80-89 | the request goes to the current queue |
| RoundRobin.WRRScheduler.Dint | debug/atomics/PhaseI/WRRScheduler.cpp:44-48 | the model waits for the next request |
| RoundRobin.NextIndexIsRight | debug/atomics/PhaseI/WRRScheduler.cpp:149-164 | the current queue while it has weight and packets, else the nearest non-empty one around the ring; -1 exactly when all are empty |
| RoundRobin.HandleKeepsInv | debug/atomics/PhaseI/WRRScheduler.cpp:49-78 | what every event keeps, and exactly when the model throws |
| RoundRobin.ChoicesAreSent | debug/atomics/PhaseI/WRRScheduler.cpp:80-89 | over every run each choice becomes one request, in order |
| RoundRobin.BoundedWait | debug/atomics/PhaseI/WRRScheduler.cpp:124-165 | while queue q has packets, other queues are chosen at most (pending weight + sum of the other weights) times before q |
| RoundRobin.FairRounds | debug/atomics/PhaseI/WRRScheduler.cpp:124-165 | while no queue is empty, after the weight left each round of as many choices as the weights' sum picks every queue exactly its weight |
| RoundRobin.KeptRequest | debug/atomics/PhaseI/WRRScheduler.cpp:91-147 | a request that finds every queue empty is kept until the first packets come, wherever they come, and leaves that queue the weight of queue 0 less one |
| RoundRobin.FirstTurn | debug/atomics/PhaseI/WRRScheduler.cpp:31-36 | a new scheduler begins with queue 0 and its full weight |
| Collections.SameAlarm | debug/atomics/PhaseI/WRRScheduler.cpp:91-122 | an event in between does not move a model's alarm |
| DataCollection.Session.MinCreditsNeeded | debug/atomics/ATLAS-TDAQ/DcmApp.h:52-63 | the credits missing for the first transaction |
| DataCollection.Session.GiveCredits | debug/atomics/ATLAS-TDAQ/DcmApp.h:66-69 | credits added, transactions untouched |
| DataCollection.Session.HasEnoughCredits | debug/atomics/ATLAS-TDAQ/DcmApp.h:71-74 | there is a first transaction and it is paid for |
| DataCollection.Session.PopNextTransaction | debug/atomics/ATLAS-TDAQ/DcmApp.h:77-91 | the lowest-numbered transaction leaves with its credits, or the error |
| DataCollection.Session.AsyncFetch | debug/atomics/ATLAS-TDAQ/DcmApp.h:94-99 | one more transaction, last in order, with its fragments sorted |
| DataCollection.SortIsRight | debug/atomics/ATLAS-TDAQ/DcmApp.h:95 | sorted, and the same fragments |
| DataCollection.DcmApp.constructor | debug/atomics/ATLAS-TDAQ/DcmApp.cpp:18-42 | one empty session per source and the initial credits, unlimited when negative |
| DataCollection.DcmApp.TryToGive | debug/atomics/ATLAS-TDAQ/DcmApp.cpp:167-177 | a selected session is served and queued exactly when its need fits what is left by then |
| DataCollection.DcmApp.DistributeCredits | debug/atomics/ATLAS-TDAQ/DcmApp.cpp:152-181 | for any shuffle it ends, gives each served session exactly what it needs when that fits, queues it, and leaves no session whose need fits |
| DataCollection.DcmApp.GroupBySession | debug/atomics/ATLAS-TDAQ/DcmApp.cpp:74-88 | the fragments of each session in order, none exactly when a fragment is unknown |
| DataCollection.DcmApp.FetchGroup | debug/atomics/ATLAS-TDAQ/DcmApp.cpp:107 | one session gets one transaction with its fragments sorted, no other session changes |
| DataCollection.DcmApp.FetchGroups | debug/atomics/ATLAS-TDAQ/DcmApp.cpp:103-108 | in any order of the hash map each addressed session gets one transaction and no other session changes |
| DataCollection.DcmApp.Dext | debug/atomics/ATLAS-TDAQ/DcmApp.cpp:50-131 | requests, tickets, wrong packets and unknown fragments, with the next alarm |
| DataCollection.DcmApp.Lambda | debug/atomics/ATLAS-TDAQ/DcmApp.cpp:133-149 | the first queued session sends its first transaction, or the error |
| DataCollection.StepKeepsInv | debug/atomics/ATLAS-TDAQ/DcmApp.cpp:50-180 | credits never negative; a session is queued exactly once if it holds exactly its first transaction's size, and otherwise holds none |
| DataCollection.CreditsConserved | debug/atomics/ATLAS-TDAQ/DcmApp.cpp:50-180 | over every run available credits, credits held and fragments requested add up to initial credits and tickets, and a queued session can always send (no "Invalid state") |
| DataCollection.CreditsStayInRange | debug/atomics/ATLAS-TDAQ/DcmApp.cpp:50-180 | as long as no more tickets came than fragments were asked for, the credit counter stays between zero and its first value |
| DataCollection.SentInOrder | debug/atomics/ATLAS-TDAQ/DcmApp.cpp:73-109 | per session, transactions sent and then those waiting are exactly those requested, in order |
| DataCollection.EveryFragmentOnce | debug/atomics/ATLAS-TDAQ/DcmApp.cpp:73-109 | every fragment is pending or sent exactly as often as it was asked for |
| DataCollection.IdleAfterSend | debug/atomics/ATLAS-TDAQ/DcmApp.cpp:133-149 | after one send nothing fits if and only if the sender has no second transaction that fits and no other session fitted before |
| DataCollection.FitsAfterAll | debug/atomics/ATLAS-TDAQ/DcmApp.cpp:133-149 | after all queued sends a session's need fits if and only if it was queued with a second transaction that fits, or was not queued and fitted before |
| DataCollection.IdleCredits | debug/atomics/ATLAS-TDAQ/DcmApp.cpp:50-149 | from every reachable state and for every input: when its sends are done some need fits, so credits lie idle, if and only if some session was queued whose second transaction fits what the input left, or the input handed out nothing and a need fitted |
| DataCollection.IdleCreditsExist | debug/atomics/ATLAS-TDAQ/DcmApp.cpp:133-149 | a run in which that happens and the model then waits for another input |
| DcmService.SentAsServed | debug/atomics/ATLAS-TDAQ/DcmApp.cpp:133-177 | over every run sessions send in the order in which they were given credits, once for each time |
| DcmService.SentAnswers | debug/atomics/ATLAS-TDAQ/DcmApp.cpp:73-109 | over every run, what a session sends is one request's: its event and processing unit, the fragments this session answers for, as often as asked, sorted |
| DcmService.FragmentsConserved | debug/atomics/ATLAS-TDAQ/DcmApp.cpp:50-149 | over every run the fragments waiting and those sent are as many as were asked for |
| DcmService.EnoughForAll | debug/atomics/ATLAS-TDAQ/DcmApp.cpp:18-180 | while no more fragments were asked for than the initial credits (the largest int when negative) and tickets, no session waits for credits once an input is done |
| Syntax.Parse | lib/parser.rb:30-39 | on success the tokens in the parse tree are the input without line ends, in order |
| Syntax.Elems | lib/parser.rb:243-278 | array elements: tokens move to the tree in order, and the context stays |
| Syntax.Params | lib/parser.rb:176-241 | parameters: the same |
| Syntax.ElementDefinition | lib/parser.rb:118-174 | an element's definition: the same |
| Syntax.InitialSymbol | lib/parser.rb:41-73 | a declaration moves at least one token, in order |
| Parsing.Parser.Match | lib/parser.rb:290-303 | the expected token is taken and line ends behind it skipped; the error for a wrong token and for none |
| Parsing.Parser.GetIdentifier | lib/parser.rb:280-284 | the identifier of that name, an error unless there is exactly one |
| Parsing.Parser.MatchText | lib/parser.rb:201-204 | the text between two quotes, or the error |
| Parsing.Parser.MatchReference | lib/parser.rb:209-212 | the one identifier of that name, or the error |
| Parsing.Parser.MatchArray | lib/parser.rb:216-219 | the elements between braces, or the error |
| Parsing.Parser.MatchParamList | lib/parser.rb:125-128 | the parameters between parentheses, or the error |
| Parsing.Parser.ElemsOfArray | lib/parser.rb:243-265 | the method follows the grammar |
| Parsing.Parser.AddMoreElementsToArray | lib/parser.rb:267-278 | the method follows the grammar |
| Parsing.Parser.ParamsProduction | lib/parser.rb:176-193 | the method follows the grammar |
| Parsing.Parser.SecondPartEqual | lib/parser.rb:195-228 | the method follows the grammar |
| Parsing.Parser.AddMoreParameters | lib/parser.rb:230-241 | the method follows the grammar |
| Parsing.Parser.NetworkElemDefinition | lib/parser.rb:118-174 | the method follows the grammar |
| Parsing.Parser.IntentProductionWithAction | lib/parser.rb:75-98 | the method follows the grammar, nil at the end of the text included |
| Parsing.Parser.IntentProductionWithCondition | lib/parser.rb:100-116 | the method follows the grammar, nil at the end of the text included |
| Parsing.Parser.DefineIdentifier | lib/parser.rb:46-53 | an identifier is known before its own definition is parsed |
| Parsing.Parser.DefineIntent | lib/parser.rb:54-69 | an intent is added, and writing its action raises |
| Parsing.Parser.InitialSymbolProduction | lib/parser.rb:41-73 | the method follows the grammar |
| Parsing.Parser.Parse | lib/parser.rb:30-39 | the whole parse gives exactly the tree, identifiers and intents of the grammar, or its error |
| ParserProofs.LookupIsUnique | lib/parser.rb:280-284 | a name resolves to an identifier exactly when it is the only one of that name |
| ParserProofs.ElemsParse | lib/parser.rb:243-278 | printed array elements are parsed back with their references resolved, or the first unresolved one is the error |
| ParserProofs.ParamsParse | lib/parser.rb:176-241 | the same for printed parameters |
| ParserProofs.ParseIsMeaning | lib/parser.rb:30-303 | every printed program is parsed to exactly what it means, or to its first error |
| ParserProofs.AcceptedIsPrinted | lib/parser.rb:30-303 | every accepted text is the print of a program that means what the parser made of it |
| ParserProofs.AcceptedLanguage | lib/parser.rb:30-303 | a text is accepted if and only if it does not begin with a line end and is the print of a program that means something |
| ParserProofs.LineEndsDoNotMatter | lib/parser.rb:299-302 | inserting a line end anywhere after the first token changes nothing |
| ParserProofs.RoundTrip | lib/parser.rb:54-69 | a program whose references are each defined exactly once by then parses back if and only if its only intent stands last and has no action; otherwise writing the action is the error |
| ParserProofs.ActionRaises | lib/parser.rb:67-69 | a program in order whose intent has an action: parsing raises |
| ParseTree.ListIsTree | lib/parser.rb:19-22 | the flat parse tree of an accepted text is, read in pre-order, one tree of the grammar for each declaration, with the text as its tips |
| ParseErrors.ErrorsGoOn | lib/parser.rb:286-303 | a syntax error is one however the text goes on; a text that only misses a token becomes a syntax error for some next token |
| ParseErrors.BadStart | lib/parser.rb:41-52 | a text that begins with neither a name nor an intent is a syntax error |
| ParseErrors.SixKinds | lib/parser.rb:118-174 | the kinds of elements are six, any other token in their place is a syntax error |
| ParseErrors.LookupErrors | lib/parser.rb:280-284 | an ambiguous or unknown name is a semantic error |

## Left out

Weaker than the source, or different from it:

- TcpSending.TcpSender.constructor: the round-trip and timeout parameters of init are not modelled.
- TcpSending.TcpSender.SetNextSigma: the alarm is now, at the timeout, or never; the length of the timeout and its sign are not modelled.
- TcpSending.TcpSender.ValidateReceivedAck: the throws for a packet without the ACK flow or the TCP header are not modelled.
- TcpSending.TcpSender.Dext: null packets and the round-trip estimate are not modelled.
- TcpSending.TcpSender.Lambda: doubling the timeout and the transmission times are not modelled.
- TcpSending.TcpSender.Dint: as for SetNextSigma, the alarm carries no time.
- TcpReceiving.TcpReceiverBuffer.Dext: the throw for a null packet is not modelled.
- TcpReceiving.TcpAck.Dext: the throw for a null packet is not modelled.
- TcpReceiving.TcpAck.Lambda: an acknowledgement carries source and number only; addresses, ports and birth times are not modelled.
- TcpProtocol.ReliableDelivery: which socket a packet takes is not modelled; the wiring file is not part of this model and each arriving packet is assumed to reach acknowledger and buffer in the same event.
- ChildHeaps.NextIsEarliest: an earliest time equal to 1e100 is left open between that child and child 0: the tree then depends on its history, and both occur (`ChildHeaps.TieWithPadding`).
- Kernel.Spread: an event due in a coupling without children does nothing here; the source indexes an empty vector (`childs[transitionChild]`), which the flat simulator's theorems exclude.
- Kernel.Internal: as for Kernel.Spread.
- Kernel.Step: time is exact; the source computes tn as t + (tn - t) in doubles, whose rounding is not modelled. An interrupted output, which skips the internal transition, is not modelled. The hierarchy is a value; the object `CouplingObject.Coupling` holds its children as values.
- FlatSimulation.RunIsFlatRun: for hierarchies in which no coupling is without children, and as long as something is due before 1e100.
- AtomicSimulation.Simulator.LambdaMessage: real-time waiting and interrupts are not modelled.
- CouplingObject.Coupling.Ta: an empty coupling gets its next-event time here instead of in its caller; it is a passive model due 1e21 after its last event.
- CouplingObject.Coupling.Propagate: the call back into the father is replaced by the list of ports by which the event leaves; the father propagates them after the inner ones, which keeps the order at every atomic model.
- CouplingObject.Coupling.Lambda: pointers between sub-couplings and the interrupt flag are not modelled.
- RootSimulation.RootSimulator.Step: exceptions and interrupted outputs are not modelled.
- RootSimulation.RootSimulator.Run: the wall-clock cut of step(int) and real-time waiting are not modelled; tf is below 1e100.
- ShortestPaths.Dijkstra.Run: weights are exact reals and not negative; negative weights give no shortest walk. Nodes are neither nil nor arrays, which compact and flatten would take out of the list, nor equal to Float::INFINITY, the mark for no position.
- Reachability.CheckPathsExist: finding the hosts that a flow's identifiers stand for, which the source does first, is not modelled.
- MathExpr.CodeIsCorrect: argument lists nest to the right, functions are not recursive, and operands are single values; a function that is declared and not defined has no value here.
- MathMachine.Machine.Val: every call gets its own value stack, as each compiled tree has; code is rebuilt for each evaluation.
- Differentiation.DiffIsDerivative: numbers, variables, sums, differences, negation and products only; x^0 simplifies to 1 but evaluates to 0 at x = 0, and the other operators are transcendental or partial.
- Queueing.LindleyRecursion: times are exact reals; byte counters do not wrap; the link's capacity is positive and its delay not negative.
- RoundRobin.BoundedWait: weights and sizes are whole numbers, weights positive; nothing is claimed about shares when queues empty mid-turn, since the weight left is carried to the next queue.
- DataCollection.DcmApp.Dext: logging and the assignment interval are not modelled, nor a null packet.
- DataCollection.CreditsConserved: the counter is unbounded; the source's int overflows on a ticket at the largest int, which `DataCollection.CreditsStayInRange` excludes while tickets do not outnumber the fragments asked for.
- DataCollection.StepKeepsInv: as for CreditsConserved, the int counter does not overflow.
- Parsing.Parser.Match: the line counter and the error messages are not modelled.
- Parsing.Parser.Parse: identifiers are referred to by position instead of by object.

Not modelled at all:

- Logging, parameter reading, sockets, files, Scilab, wall-clock waiting and the interrupt path with changemytn and externalinput.
- The lexer's regular expressions, mathexpr's string parser and printer, the ONOS and OpenDaylight generators and the command line.
- Continuous and hybrid integrators, quantisers and hardware blocks.
- Samplers, sinks, generators, index remappers and the other queue variants, whose claims are easy or repeat those above.
