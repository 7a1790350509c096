# A verified model of the virtual-time router

The repository advances virtual time in a small software router. A controller (`main`) hands out
time budgets; a worker thread (`process_thread`) forwards packets, charges a fixed cost for every
call, and answers with the time by which it overran its budget, or with "blocked". The UDP client
and the UDP server run the same protocol. This project models that protocol and the code around it,
and proves what can be relied on.

| file | models |
|---|---|
| `Decimal.dfy` | decimal text: `sprintf("%d")`, `atoi`, `str_to_i` with its 32-bit int |
| `Command.dfy` | the parser of the time keeper's command string |
| `RoundProtocol.dfy`, `RoundGuarantees.dfy`, `RunSteps.dfy` | controller and worker as a state machine over their atomic steps, with the bytes in both pipes, for any worker program; what holds in every run; steps to build runs from |
| `WorkerPrograms.dfy`, `CostTable.dfy` | the control-flow graphs of the router, the client and the server; the cost table |
| `ProgramBooks.dfy`, `Service.dfy` | the exact books of client and server over all runs, and runs in which they do any amount of work |
| `CommandRounds.dfy` | parser and protocol together: which commands keep a run going, get it stuck, or end it |
| `BoundedReply.dfy`, `Throughput.dfy` | a bound on the length of every wait for a worker; what a packet costs in virtual time |
| `Forwarding.dfy`, `Starvation.dfy` | the plain forwarding loop; whom its `goto repeat` starves |
| `Instrumented.dfy`, `Transparency.dfy` | the loop under virtual time, and that it reaches the worlds the plain loop reaches |
| `RouterSystem.dfy`, `RouterReply.dfy`, `RouterThroughput.dfy`, `RouterEnd.dfy` | the whole router: protocol, forwarding loop and packets in one state machine; its deadlocks, the bound on its waits, the price of its traffic, and an end that never comes |
| `Routing.dfy`, `RouteFile.dfy`, `Addressing.dfy` | the routing list, its lookup, and reading it from text; which bytes of a frame decide its way |
| `LinkedList.dfy`, `HashChains.dfy`, `HashMap.dfy` | the doubly linked list and the hash table on the heap |
| `Checksum.dfy`, `Packet.dfy` | the Internet checksum (RFC 1071), and the frames that construct_packet makes |
| `Tunnel.dfy` | the length-prefixed framing of the tunnel |
| `HexDump.dfy` | the hex dump of packet contents |

The two communicating threads are a step relation, because what matters about them is every
interleaving; the totals in its `Ledger` are kept for the proofs and no step looks at them. Code that
works on memory step by step (the parsers, the lists, the checksum, the framing, the dump, one turn
of the forwarding loop) is written as methods with loops over heap objects and arrays, each proved
against a function.

Assumptions about the surroundings: the two shared flags are read and written atomically and in
order; `poll` may be interrupted but does not fail; `write` to a pipe or the tap is not short; a call of `update_stub` that falls off its end returns SUCCESS, as its other paths do; hash
keys are not negative, and names without a price do not share a hash key with names that have one.

Where the code does not do what one would expect, the model follows the code:

* A zero budget makes a worker past its first read leave without an answer, and the controller waits
  for ever. A fetch gives a zero budget exactly when the last count it accepts is below 1000 or above
  2^32 - 1000 (`Command.ZeroRoundExactly`). `RoundGuarantees.DeadlockExactly` says that this is the
  only deadlock. `CommandRounds.CommandsKeepRunning` and `CommandRounds.ZeroCommandIsFatal` are the
  two halves for commands: a run without a zero fetch after its first budget is never stuck, and a
  run about to make such a fetch, the worker blocked or not, can go on to a stuck state. Under one
  command that never changes the server can get stuck exactly for those counts
  (`CommandRounds.ServerStuckExactly`).
* Removing a key from the hash table rewrites the key to 0. For a multiple of the table size the
  removed value then reappears under key 0, and key 0 itself is never removed.
  `HashChains.RemoveExactly` says exactly when removal is a deletion.
* A count of 2^31 or more passes through a signed int and does not give a thousandth of itself
  (`Command.AdvanceExactly`).
* A route to an interface that the router does not have sends the packet out of interface 0
  (`Routing.RoutedToItsInterface`).
* Two folds of the checksum's sum are exact up to 65538 words, and not beyond
  (`Checksum.ChecksumIsExact`, `Checksum.OneWordMoreFails`).
* The client charges the name "send_to", which has no price, so its sends are free, while the
  server's cost 50 (`WorkerPrograms.ClientSendsAreFree`, `WorkerPrograms.ServerSendsCost`). Over a
  run a packet costs the client 100, the server 150 and the router 200 (`Throughput.ShippedPackets`).
* The end of an experiment waits for a blocked router until a packet wakes it: `pthread_join` has
  no time limit (`RouterSystem.StillExactly`). That wait is reached from every fetch with the worker
  asleep and no packet there (`RouterEnd.EndCanWait`), and a router whose interfaces stay silent has
  such a run for every first budget above 50 (`RouterEnd.SilentRouterNeverEnds`).
* `goto repeat` after a packet without a route polls again from the first interface. An interface
  where each poll finds such a packet keeps every later one from ever being served
  (`Starvation.FloodStarves`, `Starvation.FloodLasts`).
* A short write on the tunnel's network side goes unnoticed, and the stream is right exactly if there
  was none (`Tunnel.SendAll`).
* A byte above 127 prints as eight hex digits and shifts the text column of its row
  (`HexDump.TextColumnAligned`).

`dafny verify dfyconfig.toml` checks the project.

## Model

| member | source | states |
|---|---|---|
| `RoundGuarantees.Alternation` | src/routing/router_app_vt.c:400-450 | in every run the worker runs only while the controller waits in pipe_read and never after `stop`; at most one message is under way; every reply is "blocked" or an overshoot below the last cost, so the "weird" branch is dead |
| `RoundGuarantees.TextPipesAreChannels` | src/routing/utils.c:42-70 | the bytes of each pipe always are the text of at most one integer, and pipe_read hands over exactly what pipe_send was given |
| `RoundGuarantees.TwoMessagesMerge` | src/routing/utils.c:58-70 | if two messages were in one unframed pipe, one read would empty it and lose the second; where the joined text fits an int, the reader would get the first exactly when the second is negative or both are 0 |
| `RoundGuarantees.TimeIsConserved` | src/routing/router_app_vt.c:404-446 | at every round boundary time_elapsed is costs + forfeited budgets + blocked rounds, and also budgets + overshoots; the kernel is told each overshoot once; the C int is that total in 32 bits, however often it wraps |
| `RoundGuarantees.DeadlockExactly` | src/routing/utils.c:571-583 | for every program with no dead end, neither process can step exactly when the worker has taken a zero budget after its first |
| `RoundGuarantees.ZeroBudgetIsFatal` | src/routing/utils.c:575-578 | once such a budget is written, every next step is the last |
| `RoundGuarantees.Successor` | src/routing/router_app_vt.c:416-417 | otherwise some process can always step; a waiting controller has a reply or a worker able to go on |
| `RoundGuarantees.NeverStuck` | src/routing/router_app_vt.c:404-417 | a run in which no budget after the first is zero never gets stuck |
| `RoundGuarantees.StopIsSafe` | src/routing/router_app_vt.c:405-411 | once `stop` is set, no later state of the run has charged or sent anything more |
| `RoundGuarantees.ExitIsReached` | src/routing/utils.c:820-826 | wherever the worker is, the next integer it reads is THREAD_EXITING, and it is finished within two steps |
| `RoundGuarantees.StopIsSeen` | src/routing/utils.c:688-702 | wherever the worker looks at `stop`, it leaves exactly if it is set |
| `RoundGuarantees.MessagesOnTheWire` | src/routing/utils.c:42-56 | the notice before blocking is the text -1, the order to leave the text -2 |
| `RoundGuarantees.UniformRound` | src/routing/utils.c:566-574 | with uniform cost c a reporting round of budget b has ceil(b/c) charged calls and reports c*ceil(b/c)-b |
| `RoundGuarantees.DriftIsBounded` | src/routing/router_app_vt.c:424-435 | after R reports, time_elapsed exceeds the budgets by at most R*(cmax-1) |
| `RoundProtocol.RunInv` | src/routing/utils.c:549-583 | the protocol invariant holds in every state of every run, for every program and every interleaving |
| `RoundProtocol.CtlKeepsInv` | src/routing/router_app_vt.c:400-450 | every atomic step of the controller keeps it |
| `RoundProtocol.WorkerKeepsInv` | src/routing/utils.c:788-826 | every atomic step of the worker keeps it |
| `RoundProtocol.ReadTakesAtMost` | src/routing/utils.c:58-61 | one read takes at most 2000 bytes and leaves the rest in the pipe |
| `RoundProtocol.ReadWhatWasSent` | src/routing/utils.c:42-70 | a pipe holding one printed int yields that int and is empty afterwards |
| `WorkerPrograms.RouterGraphIsSkeleton` | src/routing/utils.c:677-834 | the router's graph is the skeleton of its loop: each move outside the blocking call follows an edge, sends exactly on Transmit, and can be ended exactly at the charges and the stop check (`RouterSystem` runs the two together, the blocking call included) |
| `WorkerPrograms.ShippedRounds` | src/routing/utils.c:17-24 | router, client and server rounds: ceil(b/50) charged calls, overshoot 50*ceil(b/50)-b |
| `WorkerPrograms.ShippedDeadlock` | src/routing/test/server_n_vt.c:280-335 | the three programs deadlock only by a zero budget after the first |
| `WorkerPrograms.UnpricedIsFree` | src/routing/utils.c:563-568 | a charge leaves the time left and the books alone exactly when the name has no price |
| `WorkerPrograms.ClientSendsAreFree` | src/routing/test/client_n_vt.c:303-308 | after its send the client's only step is to go on, with nothing charged |
| `WorkerPrograms.ServerSendsCost` | src/routing/test/server_n_vt.c:325-329 | after its send the server is charged 50, and reports if that uses up the round |
| `CommandRounds.CommandsKeepRunning` | src/routing/router_app_vt.c:404-417 | for every program without dead ends and every run: if no fetch after the first sent budget gives zero, the run is never stuck |
| `CommandRounds.OrdinaryCommandsKeepRunning` | src/routing/router_app_vt.c:404-417 | router, client and server never get stuck on failed calls and printed command lists whose last counts lie in 1000..2^32-1000 |
| `CommandRounds.ZeroCommandIsFatal` | src/routing/router_app_vt.c:404-417 | every run that is about to fetch a zero budget, after the first, can go on to a stuck state, whether the worker is blocked or not and whatever is fetched later |
| `CommandRounds.SteadyAnswerExactly` | src/routing/router_app_vt.c:404-417 | for every program without dead ends that charges first: under an answer that never changes some run gets stuck exactly if the answer gives a zero budget |
| `CommandRounds.ServerStuckExactly` | src/routing/test/server_n_vt.c:275-291 | under one command that never changes the server can get stuck exactly if its count is below 1000 or above 2^32 - 1000 |
| `CommandRounds.StopIsObeyed` | src/routing/router_app_vt.c:405-411 | every run that is about to fetch -1 can go on until `stop` is set, the controller joins, and the worker has read THREAD_EXITING and left |
| `CommandRounds.StopWasFetched` | src/routing/router_app_vt.c:405-411 | in every run a controller on its way out, or with `stop` set, has fetched -1, and has fetched and sent no budget since |
| `BoundedReply.ReplyIsBounded` | src/routing/utils.c:563-583 | for every program with a bound k on the steps between priced calls, and any prices of at least c: a wait for the answer to budget b lasts at most k steps for each call of price c it takes to use up b, and 2 more |
| `BoundedReply.ClientAndServerReply` | src/routing/test/client_n_vt.c:270-380 | client: 5 steps a call; server: 4 |
| `Throughput.PacketsArePaid` | src/routing/utils.c:563-571 | for every program whose calls fund its sends by w a packet: in every state of every run the packets sent have been charged w each, but for the slack of a call still due |
| `Throughput.IdleStep` | src/routing/utils.c:788-792 | at every step from a state of the invariant, uncharged time grows only by a round fetched for a blocked worker, or by the rest of the round in which it blocks |
| `Throughput.PacketsTakeTime` | src/routing/router_app_vt.c:404-446 | at a round boundary each packet sent accounts for at least w of time_elapsed, without slack |
| `Throughput.PacketsNeedBudget` | src/routing/router_app_vt.c:404-446 | with positive budgets, the packets sent, at w each, are at most the budgets issued and the drift of the reports |
| `Throughput.ShippedPackets` | src/routing/test/client_n_vt.c:289-320 | in every run a packet costs the server 150, the client 100 and the router 200 |
| `ProgramBooks.ServerBooks` | src/routing/test/server_n_vt.c:278-333 | in every state of every run of the server: exactly one packet after each "fill_buffer" and before each "sendto", one block after each "flush_buffer", and the time charged is 100 a packet and 50 a block, up to the step in progress |
| `ProgramBooks.ServerChargesNoMore` | src/routing/test/server_n_vt.c:278-333 | the time charged lies within 50 of 100 a packet and 50 a block, also after the server has left |
| `ProgramBooks.ClientBooks` | src/routing/test/client_n_vt.c:270-380 | the same for the client: one packet between two charges for "flush_buffer", one block after each packet and one before the first, at most one "computation" for an answer, nothing else charged |
| `Service.ServerAnswers` | src/routing/test/server_n_vt.c:278-333 | for all n and m there is a run in which the server has received n requests and m empty ones and has sent exactly n answers |
| `Service.ClientAsks` | src/routing/test/client_n_vt.c:270-380 | for all m <= n there is a run in which the client has sent n packets and computed on m answers |
| `RouterSystem.RunIsCoupled` | src/routing/utils.c:670-834 | in every state of the whole router the worker's protocol state and its place in the loop agree, and the ledger counts the packets sent |
| `RouterSystem.EdgesAreMoves` | src/routing/utils.c:677-834 | every edge of the router's graph is a move of its loop, with that operation |
| `RouterSystem.LoopRun` | src/routing/utils.c:677-834 | the loop's side of a run of the whole is a run of the instrumented loop |
| `RouterSystem.ProtocolRun` | src/routing/utils.c:549-583 | the protocol's side is a run of the round protocol with the router's graph |
| `RouterSystem.TrafficOnlyInRounds` | src/routing/utils.c:717-773 | packets are taken, sent and dropped only while the controller waits in pipe_read and before `stop` |
| `RouterSystem.StopStopsTraffic` | src/routing/router_app_vt.c:405-411 | from the moment `stop` is set no packet is taken, sent or dropped |
| `RouterSystem.SystemConserves` | src/routing/utils.c:717-773 | conservation and order hold in every state of the whole router, with the controller and arrivals interleaved |
| `RouterSystem.StillExactly` | src/routing/utils.c:795-826 | neither controller nor worker can move exactly when the experiment is over, its end waits for a packet, or a zero budget after the first was taken |
| `RouterReply.RouterReplies` | src/routing/utils.c:677-834 | a router with n interfaces answers within n + 6 steps for each call it takes to use up the budget, and 2 more, whatever arrives |
| `RouterThroughput.TrafficIsPaid` | src/routing/utils.c:717-773 | in every state of the whole router 200 have been charged for each packet sent and 100 for each dropped, but for one send in progress; at a round boundary time_elapsed covers them all |
| `RouterEnd.EndCanWait` | src/routing/router_app_vt.c:405-411 | every run at a fetch with the worker asleep and no packet there can go on to a state where `stop` is set and nothing but a packet can make the router leave |
| `RouterEnd.SilentRouterNeverEnds` | src/routing/utils.c:785-818 | a router with any number of silent interfaces, on any first budget above 50, has such a run from the start |
| `CostTable.InitFuncTimes` | src/routing/utils.c:840-856 | for any hash, the filled table prices exactly the keys of the eight registered names |
| `CostTable.ChargeFromTable` | src/routing/utils.c:563-571 | the table lookup and subtraction are the protocol's charge step |
| `Command.RoundTrip` | src/routing/router_app_vt.c:53-89 | every printed list of commands is read back pair by pair in order, and its last count sets the round |
| `Command.RoundTripStop` | src/routing/router_app_vt.c:212-218 | the same list closed by STOP is read in full and then stops the experiment |
| `Command.StopExactly` | src/routing/router_app_vt.c:212-235 | on any string the result is -1 exactly when a resume point sees "STOP", and otherwise a non-negative int, which is what the controller of the protocol fetches |
| `Command.Progress` | src/routing/router_app_vt.c:78-86 | with a non-zero pid the resume point strictly grows, even where it steps back by two, and stays inside the string |
| `Command.AdvanceExactly` | src/routing/router_app_vt.c:225-235 | the round is a thousandth of the count exactly for counts below 2^31 |
| `Command.RoundOfCount` | src/routing/router_app_vt.c:225-235 | the round over all u32 counts: a thousandth below 2^31, then 100, and 0 for the last 999 |
| `Command.ZeroAdvanceExactly` | src/routing/router_app_vt.c:225-235 | the round is 0 exactly for counts below 1000 or above 2^32 - 1000 |
| `Command.LastCountDecides` | src/routing/router_app_vt.c:208-235 | on any string that does not say stop, the last accepted count alone sets the round, 100 if there is none |
| `Command.ZeroRoundExactly` | src/routing/router_app_vt.c:193-236 | for any answer of the kernel, a fetch gives a zero round exactly when it accepts a command, is not told to stop, and the last count lies in those two ranges |
| `Command.GetNextValue` | src/routing/router_app_vt.c:36-51 | the scan never reads past the terminator and finds the next value or -1 |
| `Command.GetNextCommandTuple` | src/routing/router_app_vt.c:53-89 | the parser reads only the string and computes the step that the round trip is about |
| `Command.AckAndGetNextCommand` | src/routing/router_app_vt.c:193-236 | the loop terminates on every string and returns the outcome the lemmas are about, or 100 when the kernel call fails |
| `Decimal.ReadInt` | src/routing/utils.c:73-81 | str_to_i reads the digits at its argument into a wrapping 32-bit int and stays in the string |
| `Decimal.AtoiOfIntText` | src/routing/utils.c:47-69 | printing with %d and reading with atoi is the identity on all integers |
| `Decimal.AtoiSkips` | src/routing/utils.c:69 | atoi skips white space |
| `Decimal.AtoiPlus` | src/routing/utils.c:69 | atoi takes a plus sign |
| `Decimal.AtoiOther` | src/routing/utils.c:69 | text that does not start as a number reads as 0 |
| `Forwarding.ConservationAndOrder` | src/routing/router_n.c:180-208 | in every reachable state and for every input, packets taken are sent, dropped for lack of a route, or the one in hand; packets from one input to one output keep arrival order |
| `Forwarding.RunHolds` | src/routing/router_n.c:155-231 | the loop's invariant, including that a ready input still has its packet, in every reachable state |
| `Forwarding.ScanNeverWaits` | src/routing/router_n.c:178-209 | outside the blocking poll the loop can always move: where it calls recvfrom, a packet is there |
| `Forwarding.Turn` | src/routing/router_n.c:158-214 | one turn of the loop with its `goto repeat`, while packets arrive, is a path of the step relation; it serves an input, by one packet, exactly if the poll reported it and no lower input had a packet without a route at its head; it blocks exactly if the poll reported none |
| `Starvation.FloodStarves` | src/routing/router_n.c:195-205 | in every run where each poll finds a packet without a route at the head of input f, no input behind f is ever served |
| `Starvation.FloodLasts` | src/routing/router_n.c:195-205 | for any packet without a route there are such runs of any number of turns, with a packet waiting on input 1 throughout |
| `Instrumented.Simulate` | src/routing/utils.c:795-828 | one step under virtual time is at most two plain ones; `goto skip` after a blocking poll is an immediate re-poll |
| `Instrumented.Transparent` | src/routing/utils.c:677-834 | every run under virtual time, stopped or not, ends in a world that a plain run on the same arrivals reaches: same packets taken, sent and dropped, in the same order |
| `Transparency.Covers` | src/routing/utils.c:677-834 | every run of the plain loop is matched by a run under virtual time on the same arrivals with the same packets taken, sent and dropped |
| `Transparency.SameWorlds` | src/routing/utils.c:677-834 | so the two loops reach exactly the same worlds |
| `Instrumented.ReceiveNeverBlocks` | src/routing/utils.c:732-734 | recvfrom never blocks, however long the charges before it took, so it needs no notice to the controller |
| `Instrumented.ConservationUnderVirtualTime` | src/routing/utils.c:717-773 | conservation and order hold for the router under virtual time wherever it is stopped |
| `Routing.GetDstSockIdx` | src/routing/utils.c:412-436 | the list walk and the name search give the map lookup |
| `Routing.LastEntryWins` | src/routing/utils.c:414-421 | the last entry for an address decides |
| `Routing.NoEntryNoRoute` | src/routing/utils.c:424-427 | an address has a route exactly when an entry names it |
| `Routing.SockIdx` | src/routing/utils.c:424-436 | the chosen index is -1 or below the number of interfaces |
| `Routing.RoutedToItsInterface` | src/routing/utils.c:429-435 | the packet leaves by the interface its route names exactly when the router has it |
| `Routing.DottedIsInjective` | src/routing/utils.c:407-416 | comparing dotted texts is comparing addresses |
| `Addressing.DottedReadsBack` | src/routing/utils.c:407-410 | the dotted text is four numbers with dots between them: the bytes of the address, first byte first |
| `Addressing.DestinationDecides` | src/routing/utils.c:402-416 | frames that agree on bytes 30 to 33 go the same way |
| `Addressing.SentByDestination` | src/routing/utils.c:402-436 | a frame is sent exactly if those bytes are an address routed to, by its last entry, to the first interface of that name or interface 0 |
| `Addressing.ConstructAndRoute` | src/routing/test/udp_client_n.c:291-320 | the frame that construct_packet makes for an address goes by that address |
| `Addressing.S1Forwards` | src/routing/routes/s1_routes.txt:1-4 | the four lines of this file, as they stand, are read as its four routes, and the interface of every frame through router s1 follows from its bytes 30 to 33 |
| `RouteFile.FieldsExactly` | src/routing/utils.c:324-339 | address = first token exactly when the line starts without a blank; interface = last token exactly when it ends without one |
| `RouteFile.EntryReadsBack` | src/routing/utils.c:324-339 | two fields with any text between them that starts and ends with a space or a tab are read back, with a newline behind them or at the end of the file |
| `RouteFile.FileReadsBack` | src/routing/utils.c:312-344 | a routing list written in the form of the files that come with the router is read back entry by entry |
| `RouteFile.ParseLine` | src/routing/utils.c:324-339 | splitting the line in place in the buffer gives those two fields |
| `RouteFile.PopulateRoutingList` | src/routing/utils.c:312-344 | one entry per line is appended, in order |
| `LinkedList.List.Append` | src/routing/utils/linkedlist.c:26-60 | the item goes to the end of a valid chain |
| `LinkedList.List.Get` | src/routing/utils/linkedlist.c:62-79 | the item at an index, or nothing |
| `LinkedList.List.GetPos` | src/routing/utils/linkedlist.c:81-93 | the first position whose item the checker finds equal |
| `LinkedList.List.Requeue` | src/routing/utils/linkedlist.c:99-121 | the first item becomes the last |
| `LinkedList.List.RemoveAt` | src/routing/utils/linkedlist.c:124-188 | takes out that index or nothing, and keeps the chain valid |
| `LinkedList.List.Pop` | src/routing/utils/linkedlist.c:194-221 | takes out the first item |
| `LinkedList.List.Remove` | src/routing/utils/linkedlist.c:223-239 | takes out the first equal item, or reports that there is none |
| `LinkedList.List.Destroy` | src/routing/utils/linkedlist.c:274-278 | terminates with the empty list |
| `HashMap.Table.constructor` | src/routing/utils/hashmap.c:95-122 | the table starts with that many empty buckets, 1000 for 0 |
| `HashMap.Table.Put` | src/routing/utils/hashmap.c:133-166 | the heap table holds the updated chains |
| `HashMap.Table.Get` | src/routing/utils/hashmap.c:168-200 | the value of the first entry with the key in its bucket |
| `HashMap.Table.Remove` | src/routing/utils/hashmap.c:203-226 | the entry stays, with its key rewritten to 0 |
| `HashMap.RunHistory` | src/routing/utils/hashmap.c:95-226 | a new heap table and any history on it: the answers are the table's, and a finite map's if no multiple of the size is removed |
| `HashChains.PutIsUpdate` | src/routing/utils/hashmap.c:133-166 | a put is a map update, whatever the table holds |
| `HashChains.RemoveExactly` | src/routing/utils/hashmap.c:203-226 | a removal is a map deletion exactly when the key is absent, or not a multiple of the size, or the mapping of key 0 hides the rewritten entry |
| `HashChains.DropOthers` | src/routing/utils/hashmap.c:217-225 | a removed key other than 0 is gone, and all others but 0 keep their values |
| `HashChains.DropAtZero` | src/routing/utils/hashmap.c:219-221 | what a removal does to key 0 |
| `HashChains.PutKeepsPlaces` | src/routing/utils/hashmap.c:143-164 | live keys stay unique and in their own buckets under put |
| `HashChains.DropKeepsPlaces` | src/routing/utils/hashmap.c:208-222 | and under removal |
| `HashChains.TableRefinesMap` | src/routing/utils/hashmap.c:133-226 | every history of puts, gets and clean removals is answered as a map answers it |
| `HashChains.NoMultiplesIsClean` | src/routing/utils/hashmap.c:203-226 | histories that remove no multiple of the table size are clean |
| `HashChains.FreshTableIsMap` | src/routing/utils/hashmap.c:95-226 | from the new table on, every history that removes no multiple of its size is answered as by a map |
| `HashChains.RemovedValueReappears` | src/routing/utils/hashmap.c:219-221 | a history that is not answered as a map answers it |
| `Checksum.ChecksumIsExact` | src/routing/test/udp_client_n.c:47-69 | up to 65538 words the result is the complement of the one's complement sum (section 1 of RFC 1071) |
| `Checksum.FoldingExactly` | src/routing/test/udp_client_n.c:64-66 | two folds are exact exactly when no carry is lost |
| `Checksum.OneWordMoreFails` | src/routing/test/udp_client_n.c:64-66 | 65539 words for which a carry is lost |
| `Checksum.ByteOrderIndependence` | src/routing/test/udp_client_n.c:329 | on the other byte order the result has its bytes swapped, so memory holds the same bytes without htons (section 2 of RFC 1071) |
| `Checksum.SwappedDataSwapsResult` | src/routing/test/udp_client_n.c:47-69 | swapping the bytes of every word swaps the bytes of the result |
| `Checksum.FilledFieldVerifies` | src/routing/test/udp_client_n.c:299-344 | data with its checksum in a zeroed aligned field sums to 0xFFFF |
| `Checksum.UdpCsum` | src/routing/test/udp_client_n.c:47-69 | the loop over memory computes that checksum, odd lengths included |
| `Checksum.Csum` | src/routing/test/udp_client_n.c:230-238 | the word-counting variant computes the same |
| `Packet.ConstructPacket` | src/routing/test/udp_client_n.c:240-348 | the frame has the given MAC addresses, IP addresses and data, ports 3423 and 12000, id 54321, ttl 64, zeroes behind it; and a receiver that goes by its own bytes accepts it: lengths, protocol 17, header sum and UDP sum with the pseudo header read off the IP header |
| `Packet.VerifiedIsAccepted` | src/routing/test/udp_client_n.c:329-344 | a frame whose sums verify on either host order is accepted in network order, under the protocol number it carries |
| `Packet.FinishPacket` | src/routing/test/udp_client_n.c:299-348 | the frame left in the buffer has the right lengths and addresses, both of its checksums verify, and no other byte changed |
| `Packet.FilledFrameVerifies` | src/routing/test/udp_client_n.c:329-344 | filling the IP checksum and then the UDP checksum makes both sums verify |
| `Tunnel.ReadN` | src/routing/simpletun/simpletun.c:117-130 | exactly n bytes however the reads are cut, or 0 once the stream ends |
| `Tunnel.SendAll` | src/routing/simpletun/simpletun.c:332-346 | whatever the network takes of each write, every byte of the frames' encoding is written or missing, and the stream is the encoding exactly if none is missing |
| `Tunnel.Receive` | src/routing/simpletun/simpletun.c:348-368 | for every stream whose lengths fit the buffer, and every splitting of its reads, the receiving loop terminates having written what `Decode` says |
| `Tunnel.FirstLengthFits` | src/routing/simpletun/simpletun.c:352-362 | the receiving side is safe exactly up to frames of 2000 bytes |
| `Tunnel.DecodeCut` | src/routing/simpletun/simpletun.c:348-368 | a stream of encoded frames cut anywhere has lengths that fit, and decodes to what `Delivered` says |
| `Tunnel.RoundTrip` | src/routing/simpletun/simpletun.c:332-368 | the whole stream decodes to exactly the frames sent |
| `Tunnel.CutDelivers` | src/routing/simpletun/simpletun.c:352-367 | a cut stream delivers the whole frames, and one empty frame just when the cut lies after a length and before the end of its frame |
| `HexDump.PrintData` | src/routing/pkt_info.c:228-273 | the flat loop prints exactly the rows, each rendered on its own, for every size |
| `HexDump.DumpAt` | src/routing/pkt_info.c:246-268 | for bytes below 128, each byte shows once as hex and once as text, at fixed places |
| `HexDump.CellReadsBack` | src/routing/pkt_info.c:247 | a cell ends in the byte's two hex digits, high digit first |
| `HexDump.DumpReadsBack` | src/routing/pkt_info.c:228-273 | from a dump of bytes below 128 each byte can be read back |
| `HexDump.TextColumnAligned` | src/routing/pkt_info.c:247-256 | the text column starts at offset 60 exactly in rows without bytes above 127 |

## Left out

- Sockets, ioctl, fork, interface lookup, debug output and option parsing are calls into the system; a poll is any snapshot of the inputs that have packets, recvfrom takes the first one.
- The time keeper's kernel side is not part of this model: its answer is any C string, or a failure.
- A poll that fails ends the worker without notice to the controller; the model has no such step.
- In the protocol alone a blocked worker may wake at any moment; only in `RouterSystem` does it wait for a packet.
- RoundGuarantees.TwoMessagesMerge: says nothing of a first message when the joined text is beyond an int, where `atoi` is undefined; the model keeps the low 32 bits there.
- The fields of the linked list and the hash table that hold function pointers, other than the list's equality checker, are unused by the operations modelled.
- `free` and failing `malloc` are not modelled; `llist_iterate` and `hmap_destroy` only walk and release.
- HashMap.Table.Put: does not model negative keys, which give a negative bucket index in the code; `str_hash` is any function to the natural numbers.
- HashMap.Table.Get: does not model negative keys either.
- HashMap.Table.Remove: does not model negative keys either.
- HashMap.RunHistory: does not model negative keys either.
- A stored NULL value cannot be told from an absent key in the code; the model's values are not null.
- RouteFile.ParseLine: does not model lines whose getline capacity exceeds the parse buffer of 2000, where the code leaves the buffer; nor the fixed sizes of an entry's two fields.
- RouteFile.PopulateRoutingList: does not model files with such lines.
- The ARP list of the client is not modelled: construct_packet gets its destination MAC address as a parameter, and any text without NUL as its data.
- A computed UDP checksum of zero is stored as zero, as the code does; RFC 768 would send 0xFFFF.
- Tunnel.Receive: does not model streams that announce a length above 2000, where the code leaves its buffer.
- One direction of the tunnel is modelled at a time; the real loop alternates between them on one buffer, which each turn fills before it uses it.
- `update_stub_blocking`, `write_results`, `get_time_to_advance`, `intf_name_to_sock_idx` and `tun_alloc` are unused or only reach the system.
- The floating-point statistics of the client, the packet field printers, the mininet scripts and the topology files are not modelled.
