# Verified models of the cluster mediator and its native libraries

The repository simulates a cluster of machines. Each simulated node reports its simulated
time to a mediator, which lets global time pass in quanta; around it stand a user-mode
network stack (slirp), a disassembler (diStorm), a Lua binding (luabind), metrics and charts.
This project models the parts of it in which several functions have to agree about one
state, and proves what they promise together.

`dafny verify dfyconfig.toml` checks everything.

## How the models are built

* Code that changes state step by step is a class with the source's fields and methods, or a
  method with the source's loop. Each such method is tied to a specification by value: a
  function of the old state, or a relation that fixes the result. What the code is for is
  then proved about the specification, over all inputs and all runs.
* Exceptions and error returns are results (`ok`, `Option`, an outcome datatype), never
  preconditions.
* `double` is `real`, without rounding. Counters of simulated time are unbounded naturals;
  machine integers are written out where their width matters (the `int` accumulator of
  cksum, 64-bit counters of the aggregator, the scores of the overload resolution).

| modules | source | what is proved |
|---|---|---|
| `Net`, `Nodes`, `Registry`, `Scheduler`, `Clock` | `src/network` | parts of the mediator: addresses, time reports, registration, the queue of delayed packets, the adaptive quantum |
| `Mediator`, `Protocol`, `Reports`, `Switches` | `src/network` | the mediator as a state machine over messages, packets and time-outs; safety, delivery and progress over runs; the class `Switch` refines the machine |
| `IfQueueModel`, `IfQueue`, `IfQueueFairness`, `IfQueueHistory` | `src/slirp/if.c` | the rings of rings refine two sequences of sessions; order per session, round robin, how long a session waits for its turn, and which sessions are moved |
| `Cksum` | `src/slirp/cksum.c` | the unrolled, byte-swapping sum is the RFC 1071 checksum; the exact overflow bound |
| `Prefixes`, `Decoder`, `Instructions`, `Yak`, `DecodeLoop` | `src/distorm` | how long an instruction is, byte by byte; the decoding loop lists the input; the exact condition under which its entries tile it |
| `FreeList` | `src/libluabind` | free lists threaded through Lua tables refine a set allocator; the reference count |
| `Overload` | `src/libluabind` | the choice among overloads, and when its list of candidates overruns |
| `Backlog` | `src/network/net_dest_based.cpp` | what a quantum cannot serve is carried over |
| `Metrics`, `Aggregators` | `src/common` | the tree of metrics and its prefixes; sums over beats |
| `Dhcp` | `src/slirp/bootp.c` | leases over runs, options there and back |
| `Resample` | `web/graphic_data.rb` | the two-index resampler agrees with a search per mark |
| `Hex` | `src/distorm/textdefs.c` | the hexadecimal printers print what parses back |

`Basics` and `Seqs` hold the types and facts that several of them share.

`Prefixes` models decode_prefixes of `src/distorm/prefix.c`, and `DecodeLoop.UnusedPrefixes` its
get_unused_prefixes_list; their rows cite the declarations in `prefix.h` and the calls in `decoder.c`.

### Where the code differs from its comments, or from what one may expect

* `src/network/scheduler.h:66-67` says that smaller times go first. The comparison is `>`, so
  the head of the queue is the *latest* message (`Scheduler.TopIsLatest`), a barrier releases
  the messages due in that order (`Scheduler.SplitSorted`), and the time that
  compute_quantum clips the quantum to is the time to the latest message, not to the next one.
* A message whose time and arrival stamp equal those of a waiting one is not inserted, so it
  is lost (`Scheduler.InsertLosesIff`).
* The comment in if_output speaks of interactive sessions that are downgraded. The variable
  `on_fastq` is set to 1 and never cleared, so a greedy batch session is moved as well, to the
  head of the queue it is in (`IfQueueModel.Downgrade`).
* The comment in front of if_start says that every session with packets gets its turn and then the
  first again. With packets arriving in between, two sessions of one packet each can keep a third
  one from ever being served again, however many packets leave (`IfQueueFairness.Starvation`);
  `IfQueueFairness.RunWaits` gives the exact account of what puts a session back.
* function::call notes every matching overload in a list of ten places, also those with worse scores
  than the best so far, and starts it anew only at a better score. So eleven overloads can overrun it
  although one of them alone is the best (`Overload.OverrunExample`); `Overload.Call` says exactly
  when.
* A node that has reported its stop still counts for the barrier
  (`Protocol.StopKeepsNode`, `Protocol.LaggardHoldsBarrier`).
* Nothing keeps the minimum quantum from being less than one tick. The barrier then need not lie
  ahead of global time (`Clock.BarrierAhead`), and a time-out can pass it
  (`Protocol.TimeOutEffect` says exactly when, `Protocol.TimeOutCanPass` shows one that does);
  global time still does not move.
* A part that is linked to the same whole twice keeps the last prefix only: names that it gets later
  do not appear under the first one (`Metrics.LinkReplaces`, `Metrics.RelinkForgets`).
* Reference 0, which ref never hands out, is accepted by unref and cuts off the free list
  (`FreeList.PushZero`).
* add_ratio checks the new name against the plain names only, so a ratio can silently
  replace a ratio that another part shows under the same name (`Metrics.ClashExample`,
  `Metrics.AddRatioVisible`).

## Model

| member | source | states |
|---|---|---|
| Net.HostAndPort | src/network/net_typedefs.h:37-40 | an address is valid exactly with both a host and a port |
| Net.MacOfIsUsable | src/common/mac.h:30-37 | with a prefix that the mediator accepts, the MAC addresses constructed from 16-bit ids are distinct, non-zero and not the broadcast address |
| Net.MacOfBytes | src/common/mac.h:30 | the six bytes of such an address are the four of the prefix and the two of the id, each from the highest down |
| Nodes.Node.SetSimtime | src/network/node.cpp:41-60 | the simulated time becomes the reported one unless that is older; the number of the report and the real time are stored, and nothing else changes |
| Nodes.Node.Obsolete | src/network/node.cpp:72-77 | a port is obsolete exactly if it never got a MAC address or an id and has been silent for longer than the limit |
| Registry.NoSharedMac | src/network/switch.cpp:151-257 | two registered nodes never have the same MAC address |
| Registry.RegisterMacOk | src/network/switch.cpp:151-214 | registering a sender keeps the registry's invariant, and the map then leads from its MAC address to a registered node at the sender's address; only the broadcast address yields no node |
| Registry.RegisterIdOk | src/network/switch.cpp:221-257 | registering by id keeps the invariant and yields a registered node that takes part in the synchronization if the id is not zero |
| Registry.RegisterMacChanges | src/network/switch.cpp:151-214 | registering a sender changes its own node's addresses only, and withdraws its id exactly if its MAC address was in use at another port; the only nodes forgotten are ports at the same address that never became nodes |
| Registry.RegisterIdChanges | src/network/switch.cpp:221-257 | registering by id fills in the id and the MAC address that a node lacks, changes none that it has, and forgets no node |
| Registry.RegisterMacFinds | src/network/switch.cpp:125-180 | a MAC address that is not in the map goes to the first port registered at the sender's valid address, and no node is created; only if there is no such port is the sender a new node |
| Registry.RegisterMacKnown | src/network/switch.cpp:183-214 | a sender in the map: nothing changes at its own address; without a port it gets this one, and exactly the ports there that never became nodes are forgotten; otherwise it moves and loses its id |
| Registry.RegisterMacSpecial | src/network/switch.cpp:151-165 | a sender without a MAC address is a new port each time; the broadcast address is registered for nobody |
| Registry.RegisterIdFinds | src/network/switch.cpp:221-257 | a timing message is about the node with the MAC address made from its id, else the first one at the sender's address, which keeps its address and gets the id and the MAC address it lacks; else about a new node without a port |
| Registry.PurgeOk | src/network/switch.cpp:137-149 | forgetting nodes without a MAC address never forgets a node in the map |
| Registry.StartNodesOk | src/network/switch.cpp:347-372 | the purge of obsolete ports keeps the invariant, every synchronized node and every node in the map, and starts all synchronized ones |
| Registry.PortsForgotten | src/network/switch.cpp:347-372 | a barrier forgets exactly the ports without MAC address and id that have been silent for more than 300 seconds, and starts exactly the synchronized nodes |
| Scheduler.InsertLosesIff | src/network/scheduler.cpp:35-42 | insertion adds the message and nothing else, unless one with the same time and stamp waits: then nothing changes |
| Scheduler.DueOrLater | src/network/scheduler.cpp:44-69 | what a barrier releases and what it leaves are together the queue, each message as often |
| Scheduler.SplitSorted | src/network/scheduler.cpp:44-69 | what is due is the end of the queue, so it leaves latest first |
| Scheduler.TopIsLatest | src/network/scheduler.h:63-74 | the head of the queue is the latest message; it is the earliest only if all wait for one time |
| Scheduler.Scheduler.Schedule | src/network/scheduler.cpp:35-42 | the ordered set after an insertion |
| Scheduler.Scheduler.SendPackets | src/network/scheduler.cpp:44-69 | the loop that erases while iterating releases exactly what is due, in queue order, and reports their number and the time of the head of the rest |
| Clock.QuantumBounds | src/network/switch.cpp:485-537 | the quantum is never below its minimum, although it is clipped to the time of a pending message instead of the maximum; it is the minimum after a barrier that released packets, and at most the maximum or that time |
| Clock.QuantumAdapts | src/network/switch.cpp:485-537 | the quantum is the minimum after a release, and the only one there is if the bounds are equal; it stays, clipped to them, if neither time has passed nor a packet come |
| Clock.BusyQuantum | src/network/switch.cpp:509-534 | without releases, if packets came at least once per quantum on average, it is the old one times qdown, clipped to the minimum and the limit |
| Clock.QuietQuantum | src/network/switch.cpp:509-534 | if they came less often, or time passed without any, it is the old one times qup, clipped |
| Clock.BusyShrinks | src/network/switch.cpp:516-526 | with qdown below 1 a busy quantum above the minimum becomes strictly shorter |
| Clock.QuietGrows | src/network/switch.cpp:516-526 | with qup above 1 a quiet one below the limit becomes strictly longer |
| Clock.BusyQuanta | src/network/switch.cpp:485-537 | after n busy quanta in a row the quantum is the first one times qdown n times, clipped |
| Clock.QuietQuanta | src/network/switch.cpp:485-537 | after n quiet ones it is the first one times qup n times, clipped |
| Clock.BusyReachesMinimum | src/network/switch.cpp:485-537 | so many busy quanta in a row reach the minimum |
| Clock.QuietReachesMaximum | src/network/switch.cpp:485-537 | and so many quiet ones the maximum |
| Clock.BarrierAhead | src/network/switch.cpp:473-483 | the barrier lies strictly ahead of global time in all states, and at the start, if and only if the minimum quantum is at least one tick |
| Clock.AdvanceOk | src/network/switch.cpp:473-483 | advancing by any quantum not below the minimum keeps the invariant of the clock |
| Mediator.AtBarrierInv | src/network/switch.cpp:539-559 | passing a barrier keeps the invariant of registry, queue and clock together |
| Protocol.ReachedIff | src/network/switch.cpp:431-471 | told of a synchronized node, the test for the barrier succeeds if and only if no synchronized node is short of it |
| Protocol.StepInv | src/network/switch.cpp:35-582 | every message, packet and time-out keeps the invariant of the whole mediator: registry, queue beyond the barrier, quantum at least its minimum |
| Protocol.StepEffect | src/network/control_packet_processor.cpp:139-181 | the barrier is passed if and only if a synchronized node reports and all synchronized nodes are at it, or a time-out finds them all at a barrier that does not lie ahead; then global time becomes that barrier, what is due is released and the new barrier announced; any other step leaves time, quantum and the waiting messages and announces only the current barrier |
| Protocol.NewsExact | src/network/switch.cpp:561-576 | while the barrier lies ahead nothing but a time report passes it, and the new one is then announced once if the socket takes it |
| Protocol.TimeOutEffect | src/network/switch.cpp:578-584 | a time-out never moves global time, whatever the state; it repeats the current barrier and changes nothing else, except exactly if that barrier does not lie ahead and no node is short of it: then it is passed |
| Protocol.TimeOutCanPass | src/network/mediator.cpp:174-178 | with a minimum quantum of a quarter of a tick, which is accepted, a time-out moves the barrier from 5 to 6 |
| Protocol.AdvancePasses | src/network/switch.cpp:539-559 | after a barrier has been passed no node that was synchronized is short of it |
| Protocol.NeverBehind | src/network/node.cpp:41-60 | a node synchronized when the barrier at gt was passed has reported at least gt in every later state of every run |
| Protocol.StepDelivery | src/network/switch.cpp:539-559 | whatever a step releases was waiting and is due at the new global time, which exceeds its time by no more than the quantum just closed; everything else that is due goes too and the rest stays |
| Protocol.DeliveryWindow | src/network/scheduler.cpp:44-69 | over every run a waiting message stays until global time reaches its time, and leaves at the first barrier at or after it, within the quantum that the barrier closes |
| Protocol.ReleasedOnce | src/network/scheduler.cpp:44-69 | an event releases a message once, and if two events of a run release the same message it has been accepted again in between |
| Protocol.RunConserves | src/network/switch.cpp:259-313 | over every run, whatever the quantum, messages accepted and waiting before are those released and waiting after, each as often |
| Protocol.FromStart | src/network/switch.cpp:56-90 | from the start of the mediator every run keeps its promises: each accepted message has been released once or waits, for a time not yet passed; announced barriers never decrease; no two registered nodes share a MAC address |
| Protocol.StepIsMonotone | src/network/switch.cpp:561-576 | a step announces the current barrier any number of times, and when it passes it then the new one, as often as the socket takes it; while the barrier lies ahead that is at most once, and with a minimum quantum of at least one tick the new barrier lies strictly further on |
| Protocol.RunIsMonotone | src/network/switch.cpp:561-576 | over every run announced barriers never decrease, time never goes back, no reported time is forgotten |
| Protocol.PassesAnnounced | src/network/switch.cpp:561-576 | the announcement at the end of a barrier is not suppressed as a repetition if none was made at the new time |
| Protocol.QueuedBeyondBarrier | src/network/switch.cpp:271-288 | a packet goes out at once exactly if the synchronization has not begun, or queueing is not forced and it would arrive within the quantum; else it waits for its time, behind the next barrier if not forced to, or is lost to one with the same time and stamp |
| Protocol.PacketReaches | src/network/switch.cpp:374-429 | a broadcast goes to every registered node once, another packet to the one node with its destination address if its sender is a gateway or could be registered, else to none |
| Protocol.StopKeepsNode | src/network/switch.cpp:315-330 | a node that reports its stop is stopped but still part of the synchronization |
| Protocol.LaggardHoldsBarrier | src/network/switch.cpp:431-471 | as long as a synchronized node, stopped or not, reports no later time, no event of a run moves global time |
| Reports.ReportRecorded | src/network/control_packet_processor.cpp:168-181 | after a step on a timing message the reporting node, found from the state before and the message, has the larger of the reported time and its own, the number and the real time of the report, and its id; nothing but running and warned changes of any other node |
| Reports.NothingReported | src/network/control_packet_processor.cpp:43-137 | no other event changes a reported time |
| Reports.LatestReport | src/network/node.cpp:41-60 | over every run a node's time is the latest that it has reported |
| Reports.Progress | src/network/switch.cpp:431-471 | a heartbeat or a stop moves global time to the barrier if and only if its node is synchronized then, its time is at least the barrier, and so are those of all other synchronized nodes |
| Reports.ReportAnnounces | src/network/switch.cpp:561-584 | what a timing message announces while the barrier lies ahead: the current barrier again to a node that asks, or at the stop of one without a port, and then the new barrier if it is passed, each if the socket takes it |
| Reports.OthersAnnounce | src/network/mediator_server.cpp:125-143 | the timer repeats the barrier once the synchronization has begun; packets and port requests announce nothing |
| Reports.ReportClock | src/network/switch.cpp:473-559 | the clock behind a barrier: the next quantum is the one computed from what was released, what waits and the traffic since the last barrier, and is measured from there; before it the clock stands still, and the first synchronized report starts the synchronization |
| Reports.ReportMarks | src/network/switch.cpp:315-345 | which nodes run after a heartbeat, a stop or a barrier, and which have been warned about |
| Reports.OthersClock | src/network/switch.cpp:374-429 | all other events leave the clock alone while the barrier lies ahead, but packets are counted |
| Reports.SenderRegistered | src/network/switch.cpp:374-400 | which packets register their sender: not those of gateways, and not those without content unless they are broadcasts; the sender is then in the map, at its address |
| Reports.PortThenPacket | src/network/switch.cpp:125-180 | a port request and then the first packet from there with a new MAC address: no second node at the port, and the map leads from the MAC address to one that is there |
| Switches.Switch.RegisterMac | src/network/switch.cpp:151-214 | the nodes and the map change as Registry.RegisterMacFinds, RegisterMacKnown and RegisterMacSpecial say |
| Switches.Switch.RegisterId | src/network/switch.cpp:221-257 | the same, as Registry.RegisterIdFinds says |
| Switches.Switch.EraseDupNodes | src/network/switch.cpp:137-149 | the loop erases all nodes at an address that have no MAC address, and no other |
| Switches.Switch.SimtimeAdvance | src/network/switch.cpp:431-471 | the loop decides as the specification of the barrier test |
| Switches.Switch.ComputeQuantum | src/network/switch.cpp:485-537 | the quantum is that of Clock.QuantumAdapts, BusyQuantum and QuietQuantum, whose division by zero packets is written out, and the next measurement begins |
| Switches.Switch.StartNodes | src/network/switch.cpp:347-372 | the loop that erases while iterating forgets the obsolete ports and starts the rest |
| Switches.Switch.SyncCluster | src/network/switch.cpp:539-559 | the method refines the state machine and keeps its invariant |
| Switches.Switch.TimeOut | src/network/switch.cpp:578-584 | the same |
| Switches.Switch.HeartbeatNode | src/network/switch.cpp:332-345 | the same |
| Switches.Switch.StopNode | src/network/switch.cpp:315-330 | the same |
| Switches.Switch.Send | src/network/switch.cpp:271-288 | the same |
| Switches.Switch.ProcessPacket | src/network/switch.cpp:374-429 | the same, from the registration of the sender to a broadcast |
| Switches.ControlPacketProcessor.Process | src/network/control_packet_processor.cpp:43-181 | a control message about time is one step of the state machine, with the effects of Reports.ReportRecorded, Progress, ReportAnnounces and ReportClock |
| Switches.ControlPacketProcessor.PortReply | src/network/control_packet_processor.cpp:124-137 | so is a request for the port, which registers a node only if the reply could be sent |
| Switches.Beat | src/network/mediator_server.cpp:125-143 | a round of the heartbeat thread is one step of the state machine |
| IfQueueModel.EnqueueIsFifo | src/slirp/if.c:135-228 | if_output appends the packet to its session and changes no other, whichever queue it picks and whether or not it downgrades the session |
| IfQueueModel.EnqueuePlace | src/slirp/if.c:158-217 | unless the packet is at least the sixth in a row and at least three of them have been sent, no session changes its place: an interactive packet joins the end of the fast queue if its session is not in the batch queue, another one the end of the batch queue; otherwise its session becomes the first of the batch queue; the session whose turn it was keeps its turn |
| IfQueueHistory.MovedIff | src/slirp/if.c:205-217 | over every run from empty queues, told by the packets handed in and sent: a packet moves its session to the front of the batch queue if and only if at least five were handed in before it without a pause and at least three of these have been sent; otherwise no session is moved |
| IfQueueHistory.RunTold | src/slirp/if.c:195-208 | over every run the two counters of a session say how many packets have been handed in since none was waiting, and how many of these still wait |
| IfQueueModel.SendIsFifo | src/slirp/if.c:242-298 | a round of if_start takes the oldest packet of one session; batch sessions wait for the fast queue |
| IfQueueModel.SendOk | src/slirp/if.c:242-298 | the number queued falls by one, no session is left empty, and next_m stays a place in the batch queue |
| IfQueueModel.RoundRobinIsFair | src/slirp/if.c:242-298 | taking one packet and moving to the next session is the same as serving all sessions once per round until each is empty |
| IfQueueModel.OrderStep | src/slirp/if.c:242-298 | each round sends the first packet of the fair order and keeps the order of the rest |
| IfQueueModel.StartFollowsOrder | src/slirp/if.c:242-298 | if_start sends the fast queue first come first served, then one packet per batch session per round from next_m on, as many as the link takes |
| IfQueueModel.OrderLength | src/slirp/if.c:242-298 | the fair order holds every queued packet, so with a free link both queues end up empty |
| IfQueueModel.RunIsFifo | src/slirp/if.c:135-298 | over every run and for every session, what was queued and handed in is what was sent followed by what still waits, in the same order, even across downgrades |
| IfQueueFairness.RunWaits | src/slirp/if.c:229-298 | over every run, while a batch session waits, each packet that leaves the batch queue brings it one turn nearer, and only arrivals put it back, by the number of turns given for each case; without those, fewer packets than there are batch sessions leave before its turn |
| IfQueueFairness.EnqueueDelays | src/slirp/if.c:135-228 | by how many turns an arrival puts a waiting session back or forth: a new session behind one that has had its turn, a downgrade to the front before it, a downgrade of the session whose turn it is, or of itself |
| IfQueueFairness.TakesTheTurn | src/slirp/if.c:205-217 | a downgraded session has the next turn of the batch queue exactly if round robin stands at the start of the queue or at that session |
| IfQueueFairness.Starvation | src/slirp/if.c:229-298 | from empty queues, for any number of packets, a run that sends that many while a session with a packet left is not served |
| IfQueue.Insque | src/slirp/if.c:242-298 | inserting behind an element of a ring, with the other ring untouched |
| IfQueue.Remque | src/slirp/if.c:242-298 | removing an element from a ring |
| IfQueue.IfsInsque | src/slirp/if.c:18-25 | joining the end of a session's ring |
| IfQueue.IfsRemque | src/slirp/if.c:27-32 | the head leaves its session's ring |
| IfQueue.SearchBack | src/slirp/if.c:164-171 | the search backwards finds the last session of the socket, or the queue itself |
| IfQueue.Queue.PutPacket | src/slirp/if.c:164-192 | the choice of queue and session, on the links |
| IfQueue.Queue.DowngradeSession | src/slirp/if.c:205-217 | moving a session to the front of the batch queue, on the links |
| IfQueue.Queue.IfOutput | src/slirp/if.c:135-228 | the linked rings and counters represent the specified queues before and after, where IfQueueModel.EnqueuePlace says which session is moved, and the packets sent are the specified ones |
| IfQueue.Queue.IfStart | src/slirp/if.c:242-298 | the same, for a link that takes a given number of packets |
| IfQueue.Queue.SendPacket | src/slirp/if.c:257-298 | one round of its loop: the links, next_m, if_queued and the socket's counters |
| Cksum.Checksum | src/slirp/cksum.c:47-137 | for every content, length below the overflow bound (it lies above 65535) and start alignment, the result is the RFC 1071 checksum as a little-endian host holds it |
| Cksum.OverflowBoundary | src/slirp/cksum.c:87-98 | no content of a given length can overflow the `int` sum if and only if at most 65536 bytes go through the unrolled loops |
| Cksum.ExpectedIsNorm | src/slirp/cksum.c:44-45 | the definition by 16-bit additions with end-around carry is a residue modulo 65535 |
| Cksum.RfcSumIsNorm | src/slirp/cksum.c:71-76 | byte order independence, section 2(B) of RFC 1071 |
| Cksum.VerifiesIffChecksumStored | src/slirp/cksum.c:47-137 | a packet sums to zero if and only if the field at an even offset holds the checksum computed with the field zero, or 0xffff for a checksum of zero |
| Cksum.SumUnrolled | src/slirp/cksum.c:87-98 | the unrolled loops sum the words up to where they stop, without overflow |
| Cksum.Accumulate | src/slirp/cksum.c:60-118 | the sum over an aligned or a shifted buffer, with the byte left over at either end |
| Prefixes.PrefixState.DecodePrefixes | src/distorm/decoder.c:472-475 | the scan finds the run of prefixes and keeps its longest end without a repeated kind, with the place of each |
| Prefixes.RunUnique | src/distorm/prefix.h:17-28 | that description fixes the result |
| Prefixes.AtMostFive | src/distorm/prefix.h:38-42 | at most five prefixes count for an instruction |
| Decoder.LocateRaw | src/distorm/dis_instructions.c:80-360 | the written-out walk through up to four tables is the walk through the trie; the byte it may look at behind the input decides nothing; position, length and offset move in step |
| Decoder.LocateInst | src/distorm/dis_instructions.c:362-454 | the same with a mandatory prefix, which is the last prefix or the one before a REX prefix and is given back if it does not lead to an instruction |
| Decoder.WalkBounds | src/distorm/dis_instructions.c:80-360 | no instruction ends behind the input, for any well-formed trie |
| Decoder.LocateBounds | src/distorm/dis_instructions.c:362-454 | every instruction found has at least one byte of its own, behind the prefixes |
| Decoder.ExtractModrm | src/distorm/operands.c:168-540 | the cases of addressing consume the displacement that the ModR/M and SIB bytes call for, or fail exactly if the input is too short |
| Decoder.ExtractOperand | src/distorm/operands.c:542-1430 | consumes the bytes of Instructions.NumberBytes and Instructions.AddressTable, and fails exactly if they are not there or the operand does not exist (Instructions.RegistersExist) |
| Decoder.DecodeInst | src/distorm/decoder.c:68-431 | whether there is an instruction and where it ends, as the lemmas of Instructions say, with the prefixes folded back |
| Decoder.InstructionEndBounds | src/distorm/decoder.c:68-431 | an instruction ends within the input, at most one byte beyond the limit of fifteen |
| Instructions.NumberBytes | src/distorm/operands.c:560-1160 | the bytes of every operand that is a number, from the mode, the prefixes, REX.W and the flags |
| Instructions.FullImmediate | src/distorm/decoder.c:40-66 | in 16 and 32 bits a full immediate has two bytes if and only if just one of the 16-bit mode and the operand-size prefix is there, else four |
| Instructions.AddressTable | src/distorm/operands.c:168-540 | the bytes behind a ModR/M byte are those of the addressing tables for 16 bits and for 32 and 64 bits, by mod, rm and base |
| Instructions.RegistersExist | src/distorm/operands.c:928-958 | which control, debug and segment registers exist, and that memory is not a register |
| Instructions.InstructionLength | src/distorm/decoder.c:68-431 | an instruction ends at a place if and only if it is allowed in the mode, its ModR/M byte is there and fits, its operands exist and follow each other up to there within fifteen bytes from its first prefix on, with the opcode byte of 3DNow and the comparison type that belong to it |
| Instructions.KindBytes | src/distorm/x86defs.h:103-117 | which bytes are prefixes of which kind, and that REX is one in 64 bits only |
| Instructions.PrefixesApply | src/distorm/decoder.c:537-558 | which prefixes apply, by their bytes: in 64 bits REX right before the instruction only, no operand size beside REX.W, no segments if one of CS, DS, ES and SS is there |
| Instructions.FirstByte | src/distorm/dis_instructions.c:80-174 | opcodes of one byte, by its table: where they end, and that 63 is MOVSXD in 64 bits |
| Instructions.SecondByte | src/distorm/dis_instructions.c:175-280 | opcodes of two bytes, with a REX prefix between them if the first is a mandatory prefix |
| Instructions.ThirdByte | src/distorm/dis_instructions.c:281-360 | opcodes of three and four bytes |
| Instructions.MandatoryPrefix | src/distorm/dis_instructions.c:362-454 | 66, F2 or F3 right before the instruction, or before its REX prefix, is tried as the first byte of the opcode, and belongs to it exactly if that leads to an instruction |
| Instructions.PrefixedMove | src/distorm/decoder.c:40-66 | 66 B8 34 12 90 90 begins with an instruction of four bytes in 32 and 64 bits, of six in 16 bits |
| Yak.Sort | src/distorm/decoder.c:589-590 | the exchange sort of the unused prefixes sorts |
| DecodeLoop.UnusedPrefixes | src/distorm/decoder.c:589-610 | the list holds the places of the prefixes that nothing used, in order |
| DecodeLoop.RestoredAll | src/distorm/decoder.c:589-590 | enabling disabled prefixes again makes every prefix count but the one in the opcode |
| DecodeLoop.RoundTiles | src/distorm/decoder.c:433-685 | a round consumes at least one byte; its entries' sizes are those bytes plus one per unused prefix, and without those its entries tile the bytes |
| DecodeLoop.RoundShows | src/distorm/decoder.c:462-684 | which entries a round shows: the dropped prefixes one by one, then the prefixes that the instruction neither contains nor uses and the instruction with all its prefixes, or else the kept prefixes and the byte that is none, one by one |
| DecodeLoop.ListingSizes | src/distorm/decoder.c:433-685 | the sizes of all entries are the length of the input plus the number of unused prefixes |
| DecodeLoop.ListingTiles | src/distorm/decoder.c:433-685 | the entries are contiguous and cover the input if and only if no prefix is reported unused |
| DecodeLoop.DecodeRound | src/distorm/decoder.c:462-684 | a round of the loop appends the entries of that round, or reports a lack of room exactly if they do not fit |
| DecodeLoop.InternalDecode | src/distorm/decoder.c:433-685 | the loop terminates; it succeeds if and only if the listing of the input fits, and then the result is the listing; otherwise the entries counted are its first ones |
| FreeList.TakeIsFresh | src/libluabind/ref.cpp:136-163 | a new reference is none of those in use, which keep their values |
| FreeList.ChainUnique | src/libluabind/ref.cpp:136-176 | a table holds one chain only |
| FreeList.PopStores | src/libluabind/ref.cpp:147-153 | reusing the head of the chain is taking from the set of free references |
| FreeList.PushIff | src/libluabind/ref.cpp:165-176 | a positive reference given back leaves a proper allocator if and only if it was in use |
| FreeList.PushZero | src/libluabind/ref.cpp:165-176 | reference 0 given back: the references in use keep their values, the free ones are never used again, and nothing changes exactly if there are none |
| FreeList.BackToStart | src/libluabind/ref.cpp:165-176 | given back twice, the chain runs in a circle |
| FreeList.LiveStaysLive | src/libluabind/ref.cpp:136-176 | over every run of legal operations a reference in use keeps its value until it is given back or collected |
| FreeList.CollectedStays | src/libluabind/weak_ref.cpp:75-81 | over every such run a reference whose value the collector has cleared stays in use without a value until it is given back |
| FreeList.Registry.GetN | src/libluabind/ref.cpp:115-132 | the number of elements, noted or counted, is where the next reference may go |
| FreeList.Registry.SetN | src/libluabind/ref.cpp:97-113 | writing the number down disturbs no other cell |
| FreeList.Registry.Ref | src/libluabind/ref.cpp:136-163 | the table refines the set allocator; nil gets the fixed reference |
| FreeList.Registry.Unref | src/libluabind/ref.cpp:165-176 | the same; negative references are ignored, and reference 0 loses the free ones |
| FreeList.WeakTable.Allocate | src/libluabind/weak_ref.cpp:97-126 | the allocator with a count in cell 2 refines the set allocator too |
| FreeList.WeakTable.Release | src/libluabind/weak_ref.cpp:128-136 | the same |
| FreeList.WeakTable.Create | src/libluabind/weak_ref.cpp:148-152 | a new weak reference takes a reference that is not in use and has one handle |
| FreeList.WeakTable.Collected | src/libluabind/weak_ref.cpp:75-81 | when the collector clears a value its reference stays in use, and all others keep theirs |
| FreeList.WeakTable.Copy | src/libluabind/weak_ref.cpp:154-158 | a copy is one more handle of the same object |
| FreeList.WeakTable.Destroy | src/libluabind/weak_ref.cpp:160-166 | a reference is given back with its last handle and not before |
| Overload.FindBestMatch | src/libluabind/find_best_match.cpp:31-66 | the first place of the least score that is not negative; ambiguous if and only if it occurs twice |
| Overload.FindExactMatch | src/libluabind/find_best_match.cpp:69-85 | all places of a score, in order |
| Overload.MatchesHasAll | src/libluabind/find_best_match.cpp:69-85 | every place of the score is listed, once |
| Overload.Call | src/libluabind/function.cpp:45-115 | it overruns the list of candidates if and only if more than ten matching overloads come in a row of which none but the first is better than all before it; otherwise it dispatches if and only if one overload of matching arity alone has the least score, and then to it, and an ambiguous call lists the first of the best and all that match behind it |
| Overload.CrowdedIff | src/libluabind/function.cpp:67-79 | the same condition, place by place: more than ten have matched since the last best score |
| Overload.TenFit | src/libluabind/function.cpp:43-47 | with at most ten matching overloads the list never overruns |
| Overload.OverrunExample | src/libluabind/function.cpp:67-79 | eleven overloads with the scores 0, 1, ..., 1: the first alone is the best, and the list overruns |
| Backlog.AccumulatedIsLargestExcess | src/network/net_dest_based.cpp:179-209 | the loop computes the largest excess of contention over slots of any end of the queue, zero for the empty one |
| Backlog.CarriedBounds | src/network/net_dest_based.cpp:90-111 | what is carried is not negative, at most the contention and at least the contention less the slots |
| Backlog.BacklogOverRun | src/network/net_dest_based.cpp:90-149 | over every run the backlog of a destination lies between total contention less the time of the ended quanta and total contention |
| Backlog.DestBased.AccumulatedLatency | src/network/net_dest_based.cpp:179-209 | the loop refines its specification |
| Backlog.DestBased.StartQuantum | src/network/net_dest_based.cpp:90-111 | every queue is cleared but for its backlog |
| Backlog.DestBased.PacketEvent | src/network/net_dest_based.cpp:113-160 | the latency of a packet and the contention it adds, for modelled and unmodelled addresses |
| Backlog.LatencyParts | src/network/net_dest_based.cpp:168-172 | what the latency without contention and the contention of a packet grow by for each byte and each hop, and what they are without |
| Backlog.SlotsFill | src/network/net_dest_based.cpp:194-196 | the packets of a quantum share all of its time |
| Backlog.QuantumStarts | src/network/net_dest_based.cpp:109-110 | a quantum lasts until the next global time, or ten ticks if that lies back |
| Backlog.ClusterModelled | src/network/net_dest_based.cpp:120-122 | the nodes of a cluster are modelled exactly if its prefix begins with FA |
| Metrics.InsertIff | src/common/metric.h:207-214 | an addition succeeds if and only if every name it makes, here and above, is new; it changes no existing entry, even when it fails half way |
| Metrics.AddVisible | src/common/metric.h:207-214 | a new name is visible in everything the metric is part of, and nothing visible is lost |
| Metrics.AddSolid | src/common/metric.h:207-214 | an addition that fails half way makes no name invisible but those it has added itself |
| Metrics.KnownEverywhere | src/common/metric.h:207-248 | a name is known above under the accumulated prefix and stands for the same cell |
| Metrics.AddRatioIff | src/common/metric.h:224-234 | add_ratio fails exactly if a term is missing in the metric itself or a plain name stands in the way; terms are never missing further up |
| Metrics.AddRatioVisible | src/common/metric.h:224-234 | after an accepted ratio all ratios are still visible above if and only if no other part shows a different ratio under one of the new names |
| Metrics.OtherRatiosStay | src/common/metric.h:224-234 | a ratio shown under names other than the new ones stays shown with its terms, even when the addition fails half way |
| Metrics.ClashExample | src/common/metric.h:224-248 | such a clash, reached from new metrics by six operations that all succeed: the whole then shows the wrong terms for the older ratio |
| Metrics.RatioSame | src/common/metric.h:264-271 | a ratio divides the same two cells in the part and in the whole |
| Metrics.LinkVisible | src/common/metric.h:236-248 | after a link the whole, and everything above it, knows all names of the part, even those that an addition that failed has left there |
| Metrics.LinkKeepsRatios | src/common/metric.h:236-248 | the same for ratios, if there is no clash |
| Metrics.LinkReplaces | src/common/metric.h:246-247 | a link takes the place of an older one to the same whole, and leaves the links to others |
| Metrics.RelinkForgets | src/common/metric.h:236-248 | linked under two prefixes in turn, a part shows its older names under both and the newer ones under the last only |
| Metrics.RunVisible | src/common/metric.h:207-248 | over every run of additions and links, in any order and whether or not they fail, no name and no cell is lost, ratios have their terms, and names stand in everything above under the prefixes of the links in force (the last one for each whole) as the same cell, but for those that a failed operation made itself; if all succeed there are none of these, and ratios without clashes are visible, too |
| Metrics.Metric.Add | src/common/metric.h:207-214 | the recursion over the graph of objects puts in exactly the specified entries, up to the first clash |
| Metrics.Metric.AddRatio | src/common/metric.h:224-234 | the same, for ratios |
| Metrics.Metric.AddMetric | src/common/metric.h:236-248 | a link brings in names, then ratios, then itself |
| Aggregators.SortedUnique | src/common/metric.h:156-171 | two ordered maps with the same names run through them in step |
| Aggregators.AddThenSubtract | src/common/metric.h:156-189 | `-=` undoes `+=` |
| Aggregators.Storage.Add | src/common/metric.h:156-171 | `+=` succeeds if and only if the sets of names are equal; otherwise the values up to the first difference have been added |
| Aggregators.Storage.Subtract | src/common/metric.h:173-189 | the same for `-=` |
| Aggregators.Restore | src/common/metric.h:367-376 | succeeds if and only if all names exist; what every cell holds afterwards, also after a failure: the last value written for it before the first missing name, or what it held |
| Aggregators.SumsAgree | src/common/sum_aggregator.cpp:27-40 | names of one cell have the same sum if each beat has added both or neither |
| Aggregators.SumAggregator.Beat | src/common/aggregator.cpp:26-36 | a beat adds the present values; it fails exactly if the names have changed since the first one, and has then added those before the first difference |
| Aggregators.SumAggregator.LastBeat | src/common/aggregator.cpp:38-41 | after any number of beats, failed or not, every cell shows the sum, modulo 2^64, of what was added under the last of its names; if none has failed that is the sum of its values at the beats under each of them |
| Dhcp.DistinctAddresses | src/slirp/bootp.c:52-66 | the slots have addresses of their own if and only if the low byte of the network is zero |
| Dhcp.AddressRange | src/slirp/bootp.c:52-66 | then they are the 200 from 10 to 209 in it |
| Dhcp.ServeKeeps | src/slirp/bootp.c:157-172 | a bound slot keeps its client, and a served client holds the slot it is given |
| Dhcp.ServeChooses | src/slirp/bootp.c:157-172 | a client that asks gets its first slot if it has one; any other request gets the first free slot, and is turned down only if there is none |
| Dhcp.BoundForGood | src/slirp/bootp.c:52-84 | over every run a bound slot keeps its client, and a client that asks gets the first slot it ever had |
| Dhcp.LeaseIsExclusive | src/slirp/bootp.c:157-172 | with a zero low byte no address is given to two clients in any run |
| Dhcp.DecodeEncode | src/slirp/bootp.c:86-125 | whatever options are encoded and whatever follows, the decoder finds the last message type |
| Dhcp.ReplyDecodes | src/slirp/bootp.c:196-251 | an answer is decoded to its own message type, section 9.6 of RFC 2132 |
| Dhcp.ReplyBytes | src/slirp/bootp.c:196-251 | the bytes of the options of an answer: kind, server, netmask, gateway and name server unless restricted, a lease of a day, the name of the host |
| Dhcp.AnswerBytes | src/slirp/bootp.c:196-251 | the options of an answer fill their 312 bytes with the cookie, the options, their end and zeros, and are decoded to their message type |
| Dhcp.DhcpDecode | src/slirp/bootp.c:86-125 | the loop refines that decoder for every buffer, well-formed or not |
| Dhcp.Server.GetNewAddr | src/slirp/bootp.c:52-67 | the first free slot is taken |
| Dhcp.Server.FindAddr | src/slirp/bootp.c:69-84 | the first slot of the client is taken |
| Dhcp.Server.Reply | src/slirp/bootp.c:127-251 | which slot a message gets, what the table becomes, and the bytes of the options of the answer |
| Resample.ResampleSeries | web/graphic_data.rb:229-258 | every mark before the end of the series gets the slope of the segment it lies in, nothing is divided by zero, and only marks behind the end are left out |
| Resample.FirstAfterUnique | web/graphic_data.rb:240-253 | the segment is the one that a search finds |
| Resample.MarksInside | web/graphic_data.rb:222-223 | with a positive overlap the marks increase and lie strictly inside it |
| Resample.MarksEven | web/graphic_data.rb:211-223 | the marks are evenly spaced, and the first is as far from the start as the last from the end |
| Resample.CoveredIff | web/graphic_data.rb:211-223 | every series has a segment for every mark if and only if the overlap is positive |
| Resample.Transform | web/graphic_data.rb:204-263 | with a positive overlap every series gets a value for each of the marks, the one that the search finds |
| Hex.CanonicalRoundTrip | src/distorm/textdefs.c:151-175 | the printed form parses back to the number, and different numbers print differently |
| Hex.DigitsRoundTrip | src/distorm/textdefs.c:151-175 | the digits have no leading zero unless the number is zero |
| Hex.DumpRoundTrip | src/distorm/textdefs.c:128-149 | a dump parses back to the bytes |
| Hex.DwordMemory | src/distorm/textdefs.c:297-325 | four bytes of memory are the little-endian form of their value |
| Hex.WString.StrCodeHw | src/distorm/textdefs.c:151-175 | prints the canonical form of the low 16 bits |
| Hex.WString.StrCodeHdw | src/distorm/textdefs.c:212-233 | prints the canonical form |
| Hex.WString.StrOff64 | src/distorm/textdefs.c:327-348 | prints the canonical form |
| Hex.WString.StrCodeHqw | src/distorm/textdefs.c:297-325 | eight bytes print as their little-endian value, so as str_off64 of it |
| Hex.WString.StrHexSpW | src/distorm/textdefs.c:128-149 | a space and the dump of the two bytes in memory order |
| Hex.WString.StrHexSpDw | src/distorm/textdefs.c:177-210 | a space and the dump of the four bytes in memory order |
| Hex.WString.StrHexSpQw | src/distorm/textdefs.c:235-295 | a space and the dump of the eight bytes in memory order |

## Left out

Mediator

- Threads: a message, packet or time-out is one atomic step. The source locks only part of the state, so nothing is said about interleavings inside a step.
- Sockets, clocks and the delays of the timing models are inputs of a step (`Reading`, `Event`); the place of a new node in the set of nodes, which depends on its address in memory, is one too. One step reads the clock once, but each copy of a packet has its own arrival stamp.
- Simulated times do not wrap at 2^64, except that the horizon of a search without nodes is `ULONG_MAX`; delays are not negative.
- Statistics, heartbeats to metrics, logs, termination, the CPU identification, pacing, the quantum file, and packets for the VDE and SLIRP sides.
- A negative minimum quantum, which src/network/mediator.cpp:175 does not refuse: the first barrier would be the conversion of a negative number to an unsigned one.

slirp queues and checksum

- The queue `m_usedlist`, freeing a packet after it has been sent, and if_encap. The link is the number of packets it takes (`budget`).
- insque and remque are the usual ring operations; src/slirp/misc.c is not part of this model.
- Cksum.Checksum: the bitwise `~sum & 0xffff` is written as a subtraction from 65535.

diStorm

- Texts, mnemonics and the instruction tables: the decoder is proved for every well-formed trie in which no opcode table hangs below a byte 66, F2 or F3 other than as a full table.
- Which prefixes an instruction uses is a parameter (`usedBy`): the proofs hold for every choice.
- The special texts for NOP and LEA consume no byte and are left out; locate_3dnow_inst is one more byte of the operands.
- str_hex_b, str_code_hb, str_hex_sp_b and str_code_sp_hb print from tables.

luabind

- FreeList.PushIff: for positive references; `FreeList.PushZero` is about reference 0.
- FreeList.Registry.Unref: other users of the Lua registry are taken not to touch the cells of references; reference 0 is taken to be given back only once a number of elements has been noted or the cell of the free list written.
- The assignment of weak references; everything that only moves values on the Lua stack.
- The texts of the candidates, and add_overload. What is written behind the list of candidates when it overruns and assertions are off.

Metrics, charts, network timing, DHCP

- The overload of add for differences, which does not propagate; clear_metrics and compute_metrics.
- Metrics.RunVisible: for metrics that are never part of themselves; with a circle of links add does not come to an end or meets its own name.
- Metrics.Metric.Add: the same.
- Metrics.Metric.AddRatio: the same.
- Metrics.Metric.AddMetric: the same.
- Metrics.OtherRatiosStay: says nothing about ratios shown under one of the new names when the addition fails.
- Metrics.LinkKeepsRatios: for ratios without clashes; `Metrics.AddRatioVisible` says exactly when one addition clashes.
- Resample.Transform: for a positive overlap; without one there is a series that has no value to give (`Resample.CoveredIff`).
- Backlog.DestBased.PacketEvent: for a positive bandwidth; latencies are reals before they are cut off.
- The other fields of a DHCP answer than address, kind and options, and the sending of it.
