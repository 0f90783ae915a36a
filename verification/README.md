# Verification model of cpmd

cpmd is a store-and-forward message daemon. Clients hand it records on local buses; it routes each record to a local
client or to another node, learns the network addresses of nodes from a central resolve server, connects to nodes
lazily, and meanwhile keeps up to 128 messages per node. This project models the daemon, the resolve server and the
wire formats, and proves what holds in every run.

The code that changes things step by step is modelled as classes and loops; each method is proved equal to a function
on values, and the properties of whole runs are proved about those functions.

| file | what it holds |
|---|---|
| Bytes, Bits | little-endian words, C strings, exclusive or and shifts on numbers |
| Addressing, KnownHashes | the MurmurHash3 x86 32-bit hash as the source computes it, its inverses, `Address::Create`; published values of the hash |
| Message | the message record and its wire form |
| Framing, Codecs | splitting a byte stream into frames, the two `OnRead` loops, serialised messages on a stream |
| Protocol | the protocol message, its builders and its wire form |
| Nodes | the bounded queue and the node object |
| Daemon, Servers | every callback of the daemon as a function, and the daemon as an object graph |
| Bus, Pump | client buses, what one pump of all buses routes |
| Conf, Registry | the configuration and its two indexes, the resolve server |
| Cluster, Resolution | daemon, resolve server and network together: one total step function over events, and its invariants |
| Runs, Dead | what every run guarantees, how a node is given up for good |
| Changes, Sends | exactly what each event changes in a reachable state; on which connection everything is written |
| Scenarios | a run of ordinary events into every assertion that can fail and every way a message or a node is lost |
| Ledger | where every routed message ends up: conservation, exact cache contents, order |
| SelfAddress, Requests | configuration, reply builder, codec and hash check composed; the requests on the wire |
| Links, Delivery, BusRuns | two daemons end to end, at byte level; a pump as a run of single readings |

## Environment

These assumptions are built into the event functions; nothing else is assumed about the order of events.

- A connection attempt ends later in exactly one of connected or error, with the address it was started for. A
  connection closes at most once, and closing and its callback are one step.
- A failed `Write` writes nothing; a closed connection gets no further reads. Which writes succeed is arbitrary.
- No node has the resolve server's own network address, so the three connection callbacks split as in the source.
- A failed `assert` ends the run: `ok` becomes false and nothing changes afterwards. Which assertions can fail, and
  exactly when, is proved.
- The host is little-endian, as the source's reinterpretation of bytes assumes.
- Paths and ip strings in the configuration contain no NUL.

## Where the code does less than it seems

These are modelled as the code has them, and each has a lemma.

- The message that triggers a connection attempt from the Resolved state is neither sent nor cached, so not every
  routed message is written, cached or evicted. `Ledger.NothingLostExactly` says when none is lost: exactly when no
  message for the node met it resolved with neither a connection nor the connecting mark. `Ledger.LostPerAttempt`
  matches the lost messages with the attempts, and `Scenarios.LossIsReachable` is a run.
- An attempt started by a lookup reply is not marked as connecting, so a message routed before its outcome fails the
  assertion in `RegisterNode` (`Runs.RegisterFailsExactly`, `Scenarios.WindowIsReachable`).
- The connecting mark is never cleared by success, so a node whose attempt was started by a message only caches once
  its connection breaks; a lookup that fails, is not written or is stranded on a broken connection leaves its node being
  resolved for ever (`Dead`, with runs in `Scenarios`).
- A write refused by an open connection leaves an older message in the cache while newer ones are written
  (`Ledger.OrderStep`, `Ledger.RefusedWriteJumps`, `Scenarios.JumpIsReachable`).
- `SetData` accepts exactly `kMaxDataSize` bytes, which the receiving codec rejects (`Codecs.EncodedIsFrame`).
- The path in a resolve response is sent without its terminator and read as a C string, so the read runs on into the
  bytes behind the frame up to the first NUL. The hash check still passes unless one of them is a '/': then the node
  part of the longer path is hashed, and the check passes exactly when that gives the same address, otherwise the own
  address stays as it was (`SelfAddress.SelfAddressAgrees`). A second response behind the reply contributes one byte
  without a '/' (`SelfAddress.ResponseBehind`); for every node some bytes make the check fail
  (`SelfAddress.SomethingBehindFails`).
- A codec loop goes on over the bytes already read after its callback has closed the connection
  (`Framing.CutIndependentExactly`).
- A key's length is held in 32 bits, so of a longer key only a prefix takes part in the hash
  (`Addressing.HashCollidesExactly`). From 2^31 bytes on the source's product `nblocks * 4` also overflows an int, which
  is undefined in C++; what is proved about such keys is about the model, which does not overflow.

## Model

| member | source | states |
|---|---|---|
| Delivery.HandedWasSent | cpm/cpm_server.cc:196-242 | in every run of two daemons, whatever B hands to client c was read from a client bus of A and addressed to B's own address at that time and c; the data is unchanged and the source is A's own address when it was routed, with the sender; through broken and replaced connections and any cutting of the bytes |
| Delivery.HandedAtMostOnce | cpm/cpm_server.cc:196-242 | two hand-overs, on whatever connections, are different routings and different bus records |
| Delivery.HandedInOrder | cpm/cpm_node.cc:26-36 | hand-overs from one connection keep the order of its writes; if open connections take what they are offered, that is the order of the routings and, per sending client, of its bus |
| Delivery.AllArrives | cpm/cpm_message_codec.cc:24-59 | when all bytes of a connection have arrived and it is still open, B has seen exactly the messages written on it, with no residue |
| Delivery.DeliveredIsWritten | cpm/cpm_message_codec.cc:24-59 | frame k that B's codec delivers on a connection is the serialised k-th message A wrote on it |
| Delivery.HandOverExactly | cpm/cpm_server.cc:196-221 | a delivered frame is handed over if and only if it is for this node and a present client whose bus has room |
| Delivery.HandOverIsReceived | cpm/cpm_server.cc:196-221 | applying HandleRemoteMessage frame by frame appends exactly the hand-overs, in order, to the output buses |
| Delivery.Reachable | cpm/cpm_server.cc:196-301 | the invariant behind these: every routing is one bus record, B's streams follow the bytes written by A, hand-overs are delivered frames |
| BusRuns.PumpIsRun | cpm/cpm_server.cc:223-242 | the nested loops over all buses do to the daemon what some run of single readings does: same node table, log, routing numbers and assertion outcome, same records left |
| Links.WrittenOnce | cpm/cpm_node.cc:26-36 | no routing is written twice in a run, on whatever connections |
| Links.WrittenArrived | cpm/cpm_node.cc:108-124 | everything written for a node is a routing addressed to that node, with its own body |
| Links.WrittenInOrder | cpm/cpm_node.cc:108-118 | while a node's messages are in order its writes are numbered in increasing order, across connections |
| Sends.EveryWriteIsOwn | cpm/cpm_node.cc:26-36 | in every run each write was made by one event of it: a routing of that very message, on the connection its own node had at that time, or the completion of its node's attempt, which wrote what was cached for it on the connection it opened |
| Sends.WrittenToOwnPeer | cpm/cpm_server.cc:119-124 | in every run everything written on a connection is for the configured node whose network address that connection was opened to |
| Runs.LookedUpAtMostOnce | cpm/cpm_server.cc:282-296 | each node address is looked up at most once in a run; requests plus replies in flight are at most one, and none unless the node is being resolved |
| Runs.AnswersFindResolvingNode | cpm/cpm_server.cc:395-460 | every answer that reaches the daemon finds its node being resolved with messages waiting: the refresh and unsolicited branches are never taken and every success starts a connection attempt |
| Runs.StateMovesForward | cpm/cpm_node.cc:82-102 | resolve states only move NotResolved, Resolving, Resolved, one step at a time, and a network address once set never changes |
| Runs.IndexCoherence | cpm/cpm_server.cc:462-474 | the index holds exactly the addresses with an attempt in flight or a live connection, each under its node's own address, never both and never two |
| Runs.ConnectionCoherence | cpm/cpm_server.cc:119-147 | a node carries a connection if and only if it is live, on the node's own address and indexed to that node |
| Runs.RegisterFailsExactly | cpm/cpm_server.cc:462-467 | when RegisterNode is called, its assertion fails if and only if a reply-started attempt on the address is undecided, or another node shares the address and a socket on it is in use |
| Runs.FirstFailureExactly | cpm/cpm_server.cc:119-147 | a step fails an assertion if and only if it is that one, a flush the connection does not take whole, or an init request for a registered node or over a registered connection: the lookups behind all other assertions succeed |
| Runs.OnlyTheWindow | cpm/cpm_server.cc:455-458 | with distinct configured addresses only the window is left, and reply handlers never fail |
| Changes.SelfExactly | cpm/cpm_server.cc:380-393 | one event changes the own address only by reading, on the current resolve connection, an update-self reply whose path hashes to its address, and then to that address |
| Changes.SelfIsConfigured | cpm/cpm_server.cc:380-393 | in every run the own address is 0 or that of a configured node |
| Changes.PartsExactly | cpm/cpm_server.cc:119-147 | what any event does in a reachable state to one node's presence, connection, connecting mark, network address and resolve state, for every node, and that all else about them stays |
| Changes.ReplyParts | cpm/cpm_server.cc:395-460 | the same for a reply in any state at all, with the refresh, failure and unsolicited branches that reachable states never take |
| Changes.ReplyDials | cpm/cpm_server.cc:451-459 | a reply about a known node starts an attempt if and only if it succeeds, messages wait and there is no connection; it registers that node's address and touches no queue |
| Changes.SocketsExactly | cpm/cpm_server.cc:119-147 | the index, the attempts in flight and the live connections change exactly as attempts start, succeed, fail and connections break |
| Changes.ResolveConnExactly | cpm/cpm_server.cc:303-359 | the resolve connection changes only when one comes up while there is none, and when it goes down |
| Changes.RequestsExactly | cpm/cpm_server.cc:367-378 | which events write a request, and that it carries the own address, the daemon's port or the node looked up |
| Scenarios.WindowIsReachable | cpm/cpm_server.cc:275-279 | an ordinary start-up, one lookup and a second message in the window end in the failed assertion |
| Scenarios.SharedIsReachable | cpm/cpm_server.cc:455-458 | with two configured nodes on one network address, looking up the second during the attempt to the first fails the assertion in the reply handler |
| Scenarios.FlushFailureIsReachable | cpm/cpm_node.cc:87-94 | a first connection that refuses the first write fails the assertion on the flush |
| Scenarios.RegistrationFailureIsReachable | cpm/cpm_resolve_server.cc:121-122 | a resolve connection that is replaced before the server notices its break fails the server's assertion |
| Scenarios.RejoinIsReachable | cpm/cpm_resolve_server.cc:69-75 | when the server has seen the old connection close, the daemon registers again over a new one, keeps its own address and nothing fails |
| Scenarios.LossIsReachable | cpm/cpm_server.cc:275-279 | after a failed first attempt the next message is lost while the one before it still waits, and no assertion fails |
| Scenarios.BreakIsReachable | cpm/cpm_server.cc:140-147 | a run to a connected node whose connection break gives it up |
| Scenarios.FailedLookupIsReachable | cpm/cpm_resolve_server.cc:155-157 | a run in which a node that is not configured is given up by its answer |
| Scenarios.LostLookupIsReachable | cpm/cpm_server.cc:355-359 | a run in which a configured node is given up because the connection breaks before its answer |
| Scenarios.JumpIsReachable | cpm/cpm_node.cc:26-36 | a run in which a refused write lets the next message overtake and the order is lost |
| Dead.GivenUpForever | cpm/cpm_server.cc:269-274 | once given up, a node stays so however the run goes on: nothing for it is written, dialled or looked up again |
| Dead.BrokenConnectionGivesUp | cpm/cpm_server.cc:140-147 | a broken connection gives its node up if and only if a routed message had started its attempt |
| Dead.FailedLookupGivesUp | cpm/cpm_server.cc:437-450 | a failed lookup always gives its node up |
| Dead.ResolvingGivenUpExactly | cpm/cpm_server.cc:282-296 | a node that is being resolved has been given up if and only if neither its request nor its answer is on the current resolve connection |
| Dead.LostLookupGivesUp | cpm/cpm_server.cc:355-359 | losing the resolve connection gives up every node that is being resolved |
| Dead.UnsentLookupGivesUp | cpm/cpm_server.cc:367-378 | a lookup request that is not written gives its node up at once |
| Resolution.Reachable | cpm/cpm_server.cc:262-301 | every state before the first failed assertion satisfies the node, lookup, address and index invariants together |
| Resolution.StepIndex | cpm/cpm_server.cc:455-474 | one step from any such state keeps the index invariant, and fails exactly in the three ways named |
| Resolution.OccupiedExactly | cpm/cpm_server.cc:462-467 | an index slot is taken if and only if the window or a shared address in use explains it |
| Ledger.AlwaysBalanced | cpm/cpm_message_cache_queue.cc:37-51 | in every run, even with refused writes, the messages of the routing events for a node are as a multiset what was written, cached, evicted and lost as trigger, the last being exactly the routings that met the node resolved with neither connection nor mark; the cache is exactly the last min(128, k) of the k messages cached since the last complete flush, so the queue's size assertion never fails |
| Ledger.EveryRoutingArrives | cpm/cpm_server.cc:262-301 | the account of a node holds every routing event for it, numbered and in order, and as lost exactly those that met the guard of the Resolved branch |
| Ledger.NothingLostExactly | cpm/cpm_server.cc:275-279 | no message for a node is lost in a run if and only if none met it resolved with neither connection nor connecting mark |
| Ledger.LostPerAttempt | cpm/cpm_server.cc:275-279 | the lost messages are as many as the attempts started by routing, plus the one, if any, whose attempt failed the assertion |
| Ledger.LossIsAttempt | cpm/cpm_server.cc:275-279 | in any reachable state, routing loses its message if and only if it starts an attempt or fails the assertion on the way |
| Ledger.OrderedMeans | cpm/cpm_node.cc:26-43 | the order of a node in terms of the routing events themselves |
| Ledger.OrderedExactly | cpm/cpm_node.cc:26-43 | at every point of a run, written followed by cached equals what was routed in order, minus evicted and trigger-lost, if and only if no message so far jumped the queue |
| Ledger.OrderStep | cpm/cpm_node.cc:26-43 | one event breaks that order if and only if a message is written at once while older ones are still cached |
| Ledger.WritableRunsAreOrdered | cpm/cpm_node.cc:87-118 | when open connections take what they are offered, every run is in order |
| Ledger.WritableIsEmpty | cpm/cpm_node.cc:87-94 | in those runs a connected node has nothing cached |
| Ledger.RefusedWriteJumps | cpm/cpm_node.cc:26-36 | after one refused write on a connected node the next accepted message jumps the queue |
| Ledger.AlwaysNumbered | cpm/cpm_server.cc:262-301 | arrivals for a node carry increasing routing numbers |
| Nodes.Node.constructor | cpm/cpm_node.cc:19-22 | a node starts not resolved, not connecting, with no cache |
| Nodes.Node.SendMessage | cpm/cpm_node.cc:26-36 | written when connected and the write succeeds, otherwise cached with eviction |
| Nodes.Node.CacheMessage | cpm/cpm_node.cc:38-43 | the queue is created on first use and given a drop slot, so its size assertion holds |
| Nodes.Node.FlushMessage | cpm/cpm_node.cc:108-118 | writes the longest prefix before the first refused write, keeps exactly the rest, terminates, and succeeds if and only if nothing is left |
| Nodes.Node.SetConnection | cpm/cpm_node.cc:87-94 | flushes first; its assertion fails if and only if the flush is incomplete |
| Nodes.Node.HasCachedMessage | cpm/cpm_node.cc:73-75 | whether the cache is non-empty |
| Nodes.MessageCacheQueue.Push | cpm/cpm_message_cache_queue.cc:44-51 | appends, giving up the oldest entry of a full queue |
| Nodes.MessageCacheQueue.PopFront | cpm/cpm_message_cache_queue.cc:37-42 | removes and returns the oldest entry |
| Nodes.MessageCacheQueue.Front | cpm/cpm_message_cache_queue.cc:30-35 | the oldest entry, if any |
| Nodes.QueueIsLastPushed | cpm/cpm_message_cache_queue.cc:44-51 | from empty, any sequence of pushes leaves exactly the last max messages in order |
| Servers.Server.constructor | cpm/cpm_server.cc:38-44 | no nodes, no clients, local own address |
| Servers.Server.HandleBusMessage | cpm/cpm_server.cc:223-242 | terminates; routes what the buses give, client by client in key order, and leaves on each bus what follows its first invalid record; busy if and only if something was routed; stops at a failed assertion; otherwise each output bus has grown by exactly the messages for this node or node 0 and its client that found room, in order, and exactly the other messages were routed to remote nodes, once each and in order, numbered on |
| Servers.Server.DrainClient | cpm/cpm_server.cc:225-240 | the inner loop: one client's valid records up to the first invalid one, source stamped |
| Servers.Server.HandleRemoteMessage | cpm/cpm_server.cc:196-221 | accepted if and only if addressed to this node; delivered to the client if present and with room, otherwise dropped |
| Servers.Server.HandleToLocalMessage | cpm/cpm_server.cc:244-260 | delivered to the local client if present and with room |
| Servers.Server.AddClient | cpm/cpm_server.cc:168-184 | a client is filed under the hash of its name, with whatever its restored or created buses hold, unless one is there already |
| Servers.Server.PumpRepeatedly | cpm/cpm_server.cc:50 | repeated calls with no new input leave what repeated pumps leave; more calls than the largest number of invalid records on any bus empty every bus |
| Servers.Server.HandleToRemoteMessage | cpm/cpm_server.cc:262-301 | the in-place routing over the shared node objects is the routing function, with its dial, lookup and log, and keeps both indexes consistent |
| Servers.Server.UpdateNodeAddressCache | cpm/cpm_server.cc:395-460 | the in-place reply handler is the reply function, including refresh, failure and unsolicited branches |
| Servers.Server.UpdateSelfAddress | cpm/cpm_server.cc:380-393 | the own address changes if and only if the node part of the path as read hashes to it |
| Servers.Server.HandleResolveServerMessage | cpm/cpm_server.cc:320-341 | a message that is no response closes the connection unread; otherwise dispatch by response type, ignoring unknown ones |
| Servers.Server.OnConnectedToRemoteNode | cpm/cpm_server.cc:119-124 | the in-place callback is the connected function, with its flush |
| Servers.Server.OnConnectToRemoteNodeError | cpm/cpm_server.cc:126-134 | clears the connecting mark of the indexed node and unregisters it |
| Servers.Server.OnRemoteNodeDisconnected | cpm/cpm_server.cc:140-147 | clears the connection of the indexed node and unregisters it |
| Servers.Server.OnConnectedToResolveServer | cpm/cpm_server.cc:303-313 | remembers the connection and writes the init request with the daemon's port |
| Servers.Server.OnConnectedToResolveServerError | cpm/cpm_server.cc:315-318 | schedules the next attempt |
| Servers.Server.OnResolveServerDisconnected | cpm/cpm_server.cc:355-359 | forgets the connection and schedules the next attempt |
| Servers.Server.RegisterNode | cpm/cpm_server.cc:462-467 | indexes the node under its address; the assertion fails if and only if the address is taken |
| Servers.Server.UnRegisterNode | cpm/cpm_server.cc:469-474 | removes the node's address; the assertion fails if and only if it is absent |
| Servers.Server.AddNewNode | cpm/cpm_server.cc:476-480 | a fresh node object that shares nothing with the others |
| Bus.ClientInfo.ReadMessage | cpm/cpm_client_info.cc:42-63 | a truncated or over-long record is consumed but reads as nothing |
| Bus.ClientInfo.WriteMessage | cpm/cpm_client_info.cc:37-40 | appends to the output bus if there is room |
| Pump.PumpsEmptyAll | cpm/cpm_server.cc:223-242 | with no new input, one more pump than the largest number of invalid records on any bus empties all buses, and fewer than that number leave a record on some bus |
| Pump.NextShare | cpm/cpm_server.cc:223-242 | what each further pump routes for a client, which adds up to what the single-bus result counts |
| Bus.PumpsEmpty | cpm/cpm_client_info.cc:42-63 | for one bus: with no new input, one more pump than there are invalid records empties a bus and has routed every valid record once in order; fewer pumps than invalid records leave something behind |
| Bus.PumpOnce | cpm/cpm_client_info.cc:42-63 | one pump routes a prefix of the valid messages and consumes at most one invalid record |
| Bus.BuiltRecordTaken | cpm/cpm_client_info.cc:42-63 | a record of a message built by the client library is taken if and only if header and data are shorter than kMaxDataSize; one byte less than a header is never taken |
| Pump.PumpRoutesExactly | cpm/cpm_server.cc:223-242 | of every client a pump routes exactly the valid records before its first invalid one, once each and in order, with both source addresses stamped |
| Pump.StaysHere | cpm/cpm_server.cc:230-260 | a message for node 0 or the own address goes to its client's output bus if it is there with room, and changes nothing else |
| Pump.LeavesHere | cpm/cpm_server.cc:230-242 | a message for any other node touches no output bus and is routed exactly once, with its number, its own answer of the connection and what it asks of the network added to the pump's |
| Pump.NamedClientStays | cpm/cpm_server.cc:230-260 | a message addressed to a bare client name is delivered to the client filed under the name's hash, whatever the own address is |
| Pump.PumpDelivers | cpm/cpm_server.cc:223-242 | over a whole pump: each output bus grows by what is kept here for it, in order, and the routings are exactly the messages for other nodes |
| Registry.NextCoherent | cpm/cpm_resolve_server.cc:61-169 | each event keeps the registration invariant, and an assertion fails if and only if an init request for a configured node names a registered one or comes from a registered connection |
| Registry.AfterCoherent | cpm/cpm_resolve_server.cc:61-169 | in every run: connections_ maps a to c exactly when open connection c has context a; every other open connection still has its own timer |
| Registry.NeverKicksOffRegistered | cpm/cpm_resolve_server.cc:77-82 | no timer ever closes a registered connection |
| Registry.InitCoherent | cpm/cpm_resolve_server.cc:105-130 | the exact condition under which registration fails its assertions |
| Registry.LookupCoherent | cpm/cpm_resolve_server.cc:132-169 | lookup never fails an assertion, and its address-mismatch branch is unreachable |
| Registry.CloseCoherent | cpm/cpm_resolve_server.cc:69-75 | OnClose's assertion always holds |
| Registry.TimerCoherent | cpm/cpm_resolve_server.cc:77-82 | an expiring timer keeps the invariant |
| Registry.LookupReplies | cpm/cpm_resolve_server.cc:152-165 | answers come only from lookups, name the node asked for, succeed if and only if it is configured, and carry its configured address |
| Registry.DropCloses | cpm/cpm_resolve_server.cc:69-75 | a closing connection loses its ip and context, its registration is gone, and every other connection, registration and timer is unchanged |
| Registry.ConnectionsExactly | cpm/cpm_resolve_server.cc:61-103 | connections open and close exactly with new connections, peers closing, refused requests and expired timers of unregistered ones |
| Registry.RegistrationsExactly | cpm/cpm_resolve_server.cc:69-130 | a registration lasts exactly until its connection closes, and is made exactly by an init request for the node configured at the connection's ip and announced port |
| Registry.TimersExactly | cpm/cpm_resolve_server.cc:77-82 | an expiring timer is used up and closes its own, unregistered connection and no other |
| Registry.RepliesExactly | cpm/cpm_resolve_server.cc:105-169 | who gets a reply and every field of it: the configured node or not-found for an init request; for a lookup the same if the asker is registered, else none |
| Registry.ClosedMayRejoin | cpm/cpm_resolve_server.cc:69-130 | in every run, once a registered connection has closed, its node registers over any new one with a kOk reply and no failed assertion |
| Registry.ResolveServer.OnNewConnection | cpm/cpm_resolve_server.cc:61-67 | starts a timer and keeps its id as context |
| Registry.ResolveServer.OnClose | cpm/cpm_resolve_server.cc:69-75 | forgets the registration of the connection's context |
| Registry.ResolveServer.KickOffNode | cpm/cpm_resolve_server.cc:77-82 | closes the timer's connection if it is still open |
| Registry.ResolveServer.OnMessage | cpm/cpm_resolve_server.cc:84-103 | dispatch, reply and close; a refused request is answered by closing |
| Registry.ResolveServer.HandleNodeInit | cpm/cpm_resolve_server.cc:105-130 | registration by peer ip and announced port |
| Registry.ResolveServer.HandleNodeLookup | cpm/cpm_resolve_server.cc:132-169 | lookup for a registered asker |
| Conf.ResolveServerConf.CreateFromEntries | cpm/cpm_resolve_server_conf.cc:69-91 | fails if and only if two entries hash to one node address; otherwise both lookups equal linear searches of the entries (the first one for an address pair) and every pointer denotes a stored node |
| Conf.ResolveServerConf.GetNodeInfoByNetAddress | cpm/cpm_resolve_server_conf.cc:100-104 | lookup through the second index |
| Conf.ResolveServerConf.GetNodeInfoByNodeAddress | cpm/cpm_resolve_server_conf.cc:106-110 | lookup by node address |
| Conf.LoadedConfOk | cpm/cpm_resolve_server_conf.cc:69-91 | entries are stored under their own addresses in both indexes of any loaded configuration |
| Conf.StoredAsWritten | cpm/cpm_resolve_server_conf.cc:69-91 | every entry is stored under the hash of its own path with its own path, ip and port |
| Conf.FirstWithNet | cpm/cpm_resolve_server_conf.cc:100-104 | an ip and a port find the node of the first entry with both |
| SelfAddress.SelfAddressAgrees | cpm/cpm_server.cc:380-393 | for every loaded configuration and every daemon it contains, the init reply arrives first and whole however it is cut and whatever follows it; read as a C string with the bytes behind it, it sets the own address to the configured node's if and only if no '/' comes before the first NUL or the longer prefix hashes alike, and otherwise changes nothing |
| SelfAddress.CreateRunsOn | cpm/cpm_address.cc:27-56 | the node part of a path read too far is unchanged unless a '/' was read, and then is the hash up to the last one |
| SelfAddress.ResponseBehind | cpm/cpm_protocol.cc:75 | another response behind the reply leaves the check passing |
| SelfAddress.SomethingBehindFails | cpm/cpm_server.cc:382-388 | for every node there are bytes behind its path with which the check fails |
| SelfAddress.ResponseRoundTrip | cpm/cpm_protocol.cc:75-81 | a full response survives builder, serialisation and reading through the struct, its path continued by the bytes behind the frame up to the first NUL |
| SelfAddress.CStringReadsPathExactly | cpm/cpm_server.cc:382 | reading the unterminated path as a C string is right if and only if a NUL follows it |
| SelfAddress.NotFoundArrives | cpm/cpm_resolve_server.cc:154-157 | the frame of a not-found answer ends after the node address; code, type and address read back from it |
| SelfAddress.ReplyHead | cpm/cpm_protocol.cc:18-24 | the first bytes of an init reply, literally |
| Requests.LookupArrives | cpm/cpm_server.cc:367-378 | a lookup request survives builder, serialisation and reading through the struct, whatever follows it |
| Requests.InitArrives | cpm/cpm_server.cc:303-313 | so does an init request with its port; its peer address lies behind the frame |
| Requests.PeerUnread | cpm/cpm_resolve_server.cc:105-130 | which the server's handling of an init request does not depend on |
| Protocol.OrderDoesNotMatter | cpm/cpm_protocol.cc:26-81 | distinct setters give the same bytes and length in every order, although the last one assigns the length |
| Protocol.BuildCanonical | cpm/cpm_protocol.cc:26-81 | any such build has every field as set, zeros elsewhere, and the furthest field end as length |
| Protocol.BuiltFrameReadsBack | cpm/cpm_protocol_message_codec.cc:35-57 | the codec accepts every built frame whole, and every field lies inside it and reads back |
| Protocol.UncoveredIsZero | cpm/cpm_protocol.cc:37-44 | bytes no setter covers stay zero |
| Protocol.ProtocolMessage.constructor | cpm/cpm_protocol.cc:37-44 | cleared record with type and zero length |
| Protocol.ProtocolMessage.EnsureLength | cpm/cpm_protocol.cc:26-32 | raises the length to at least the given size |
| Protocol.ProtocolMessage.SetField | cpm/cpm_protocol.cc:46-57 | writes the field in place and raises the length |
| Protocol.ProtocolMessage.SetNodePath | cpm/cpm_protocol.cc:59-67 | copies the path and assigns the length |
| Protocol.ProtocolMessage.Serialize | cpm/cpm_protocol.cc:18-24 | header and the first len bytes |
| Codecs.MessageCodec.OnRead | cpm/cpm_message_codec.cc:24-59 | the cursor loop is the scan of the buffered bytes: same frames handed over, same residue, same close; every access is in bounds |
| Codecs.ProtocolMessageCodec.OnRead | cpm/cpm_protocol_message_codec.cc:20-58 | the same for protocol messages, unconditionally |
| Framing.ScanSplits | cpm/cpm_message_codec.cc:30-58 | a scan loses no byte, delivers only complete valid frames, and stops only in front of an incomplete frame or a bad header |
| Framing.SplitUnique | cpm/cpm_message_codec.cc:30-58 | there is only one such split of a stream |
| Framing.ScanContinues | cpm/cpm_message_codec.cc:24-59 | reading more bytes continues from the residue |
| Framing.FragmentationIndependence | cpm/cpm_message_codec.cc:24-59 | for both codecs every cut of a stream gives the messages, status and residue of one read |
| Framing.AnyCut | cpm/cpm_message_codec.cc:52-56 | when the callback may close: delivery is a prefix of one read's, reaches at least the first closing frame, and the connection stays open in the same cases |
| Framing.CutIndependentExactly | cpm/cpm_message_codec.cc:52-56 | then delivery is the same for every cut if and only if no frame follows the first one that closes |
| Codecs.EncodedIsFrame | cpm/cpm_message_codec.cc:32-43 | a built message is accepted if and only if it is shorter than kMaxDataSize, and otherwise rejected |
| Codecs.HeadersExactly | cpm/cpm_message_codec.cc:30-43 | which header bytes each codec rejects and which it takes at which size, byte by byte |
| Codecs.BadHeaderCloses | cpm/cpm_message_codec.cc:30-43 | good frames and then a bad header, cut anywhere: exactly the frames before it are delivered and the connection is closed |
| Codecs.ScanEncoded | cpm/cpm_message_codec.cc:24-59 | of built messages back to back, exactly those before the first over-long one are delivered |
| Codecs.RoundTrip | cpm/cpm_message_codec.cc:24-59 | cut anywhere, built messages are decoded unchanged and in order up to the first over-long one; the connection stays open if and only if there is none |
| Codecs.UniquelyDecodable | cpm/cpm_message.cc:29-31 | equal concatenated serialisations come from equal lists of messages |
| Messages.DecodeEncode | cpm/cpm_message.cc:29-31 | a serialised message reads back as itself for every int32 length field |
| Messages.KnownBytes | cpm/cpm_message.cc:29-31 | a serialised message literally, which fixes the order of the header fields |
| Messages.MessageRecord.Default | cpm/cpm_message.cc:23-28 | an empty message with the magic number |
| Messages.MessageRecord.SetData | cpm/cpm_message.cc:37-45 | refuses more than kMaxDataSize bytes, otherwise sets length and bytes |
| Messages.MessageRecord.SetSourceAddress | cpm/cpm_message.cc:47-49 | changes only the source |
| Messages.MessageRecord.SetRemoteAddress | cpm/cpm_message.cc:51-53 | changes only the destination |
| Messages.MessageRecord.Clear | cpm/cpm_message.cc:55-62 | clears addresses and length, keeps the magic number |
| Messages.MessageRecord.Serialize | cpm/cpm_message.cc:29-31 | the header and len bytes of data |
| Messages.BuildMessage | cpm/cpm_message.cc:23-53 | Default, SetData and the address setters give a well-built message whether or not the data fits |
| Addressing.Hash | cpm/cpm_address.cc:66-118 | the loop, tail switch and finaliser on 32-bit words compute the hash function, which has the published MurmurHash3 values and whose rounds and finaliser are bijective |
| KnownHashes.EmptySeedOne | cpm/cpm_address.cc:66-118 | published value of MurmurHash3 x86 32: no bytes, seed 1 |
| KnownHashes.OneBlock | cpm/cpm_address.cc:66-118 | published value of MurmurHash3 x86 32: one block, no tail |
| KnownHashes.TailOfOne | cpm/cpm_address.cc:66-118 | published value of MurmurHash3 x86 32: no block, a tail of one byte |
| KnownHashes.TailOfTwo | cpm/cpm_address.cc:66-118 | published value of MurmurHash3 x86 32: a tail of two bytes |
| KnownHashes.TailOfThree | cpm/cpm_address.cc:66-118 | published value of MurmurHash3 x86 32: a tail of three bytes |
| KnownHashes.ThreeBlocks | cpm/cpm_address.cc:66-118 | published value of MurmurHash3 x86 32: three blocks and a tail, another seed |
| KnownHashes.ClientNamedA | cpm/cpm_address.cc:66-118 | the hash of the client name "a" with the source's own seed |
| Addressing.TrailingNulCounts | cpm/cpm_address.cc:110-116 | the length takes part: a key and the key with one more NUL in its tail hash apart, at any length the source holds in 32 bits |
| Addressing.HashNeverCollidesInOneBlock | cpm/cpm_address.cc:66-118 | equally long keys that differ inside one 4-byte block or only in the tail never collide |
| Addressing.HashCollidesExactly | cpm/cpm_address.cc:76-82 | at any length of the model's, they collide if and only if they agree on the bytes that take part |
| Addressing.HashInjectiveOnShortKeys | cpm/cpm_address.cc:66-118 | the hash is injective on keys of one length up to 4 |
| Addressing.BlockBijectiveInState | cpm/cpm_address.cc:84-92 | for a fixed block the round is a bijection of the state |
| Addressing.BlockInjectiveInWord | cpm/cpm_address.cc:84-92 | for a fixed state the round is injective in the block |
| Addressing.ScrambleBijective | cpm/cpm_address.cc:86-88 | the block's own mixing is a bijection |
| Addressing.FinaliseBijective | cpm/cpm_address.cc:112-116 | the finaliser is a bijection on 32-bit words |
| Addressing.ClientAddressComposes | cpm/cpm_address.cc:27-56 | a client named under a node path has that node's address and its own |
| Addressing.CreateByParts | cpm/cpm_address.cc:27-56 | Create on every path, by its node part up to the last '/' and its client part: each hashed on its own, a missing one is 0 |

## Left out

- Sockets, the UDP handshake, the event loop and real time: buses are queues of records, connections byte streams with an open flag and a boolean write, timers a set of pending ones that may expire at any time.
- XML parsing of the configuration: the model starts from the list of node entries.
- Bus paths and the mapping of bus files in HandleInitCommand: the insertion of the client with what its buses hold is modelled.
- Options, the programs' start-up, the client library's socket code, the chatroom examples, logging and the connected-nodes counter.
- The reconnect timer of the resolve server connection: a new connection may come up at any time while there is none.
- Messages of another type than a response on the resolve connection, in whole runs: a resolve server never sends one.
- Replies to other daemons' connections: they do not reach the daemon under study and are dropped from the wire.
- Requests and replies travel as values between daemon and resolve server in Cluster; SelfAddress.ResponseRoundTrip and the framing theorems are what justifies this for full replies.
- A rejected init request's reply carries only the error code; the daemon reads its type as unknown and ignores it.
- Rotation is written as the sum of the two shifted halves, which share no digit, instead of their bitwise or.
- The message callback of a codec is always set, as both users of a codec set it before reading.
- Bus records whose header announces more bytes than the record holds: the message a record reads as is part of the record.
- The routing number in a routed message and the log of effects exist only in the model, to tell equal messages apart.
- Pointers in the configuration's and the daemon's second index are keys of the first in the value models; in Servers they are object references.
- Uninitialised and unaligned memory: not modelled.
- Codecs.MessageCodec.OnRead: stops as undefined at a header whose signed length is negative or overflows the size computation. The source's loop then steps by less than a header (lengths -23 to -1), for ever by nothing (-24), backwards, or with an overflowed size; none of this is modelled, as no message built with SetData has such a length.
- Addressing.Hash: does not model the int overflow of `nblocks * 4` for keys of 2^31 bytes or more, which is undefined in C++.
- Addressing.HashCollidesExactly: is about the model's hash for keys of 2^31 bytes or more, for the same reason.
- Registry.ResolveServer.OnMessage: a refused request is answered by closing only; the source first writes a reply it never filled in, whose bytes are uninitialised memory.
- Delivery.HandedInOrder: the order of the routings is stated for hand-overs made under one own address of B, since a message for another address belongs to another node's queue.
- Delivery.HandedWasSent: is stated for clients that put messages built with Default and SetData on their buses, as the client library does.
