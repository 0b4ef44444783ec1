# Gateway message routing: a Dafny model

This project models the message-routing heart of the IoT gateway and proves what it keeps on every run.

- `Bytes`, `Messages`: the wire format of a message. A functional encoder and parser are proved to be inverse to each
  other in both directions; the methods that fill and read byte arrays compute exactly them.
- `Frames`, `PubSubBroker`: the publish/subscribe broker. Data and quit frames, the table of receive sockets with counted
  subscriptions, and the worker loop.
- `GatewayModel`, `GatewayLaws`, `GatewayLL`, `GatewayCreate`, `GatewaySnapshot`: modules and links of the gateway and the
  subscriptions they stand for.
  `GatewayModel` says what each operation does to a value and proves invariants of every run; `GatewayLL` is the C code
  statement by statement on an object over the broker object, each method proved to do what `GatewayModel` says;
  `GatewayLaws` says what each operation comes to for a caller, by names and handles alone.
- `Delivery`: publishers, gateway operations and workers together; end-to-end soundness and
  completeness of delivery.
- `BroadcastBroker`, `BroadcastDelivery`: the concurrent broadcast broker as interleaved steps of callers and workers with
  locks and condition variables, and who has been given which messages.
- `EventSystem`, `EventLaws`: the event thread that retires and restarts, with any number of reporting threads, and what a
  report comes to.
- `BleSequence`, `BleLaws`, `BleIoSeq`: the reference-counted BLE instruction sequencer, as functions, as laws of its
  events and as an object.
- `GioAsyncSeq`: the sequencer of asynchronous GLib calls.
- `PropertyMaps`, `IdentityMaps`, `IdentityLaws`: the identity map module, with its two sorted arrays, and what it answers
  in terms of its configuration.

What a library or the environment decides is a parameter: which allocations, locks, sockets and threads can be made,
which subscriptions are refused, the handle `Module_Create` returns, the sockets a sent frame does not reach, which I/O
requests are accepted and which thread runs next. Contracts taken from libraries: `NN_SUB` subscriptions are counted and
unsubscribing an absent topic is reported and changes nothing; a sent frame is offered to every socket with a matching
prefix and may be dropped; module handles are fresh and not NULL; a GUID has 36 ASCII characters and is fresh; a MAP keeps
insertion order; an accepted asynchronous request completes once; `qsort` sorts and permutes.

Where the code does less than its documentation says, the model follows the code:

- A wildcard link that cannot be added completely is rolled back too far (`core/src/gateway_ll.c:1046-1050`).
  `GatewayModel.RollbackLosesSubscription` is a run in which a regular link stays without its subscription;
  `GatewayModel.ApplyKeeps` says exactly when an operation keeps the routing exact and
  `GatewayModel.WildcardAlwaysExactIff` for which sinks it always does. Routing stays safe in any case.
- The list of modules is refused when a regular link comes after a wildcard link to the same sink
  (`core/src/gateway_ll.c:172-185`): `GatewaySnapshot.GetModuleList`, `GatewaySnapshot.ListingIsRefused`.
- `Broker_RemoveModule` waits for the worker while it holds `modules_lock`, so it does not return if the module's handler
  is publishing: `BroadcastBroker.JoinReturnsIff`, `BroadcastBroker.RemovalCanBlock`. If the handler never publishes it
  returns: `BroadcastBroker.RemovalReturns`.
- An event queued after the worker's last look at the queue waits for the next report or for destruction:
  `EventSystem.ServedIff`, `EventSystem.RowCanBeStranded`.
- Requirement SRS_EVENTSYSTEM_26_013 says that after a failure no further callbacks are called. The code starts no new
  report then (`EventSystem.ErroredStartsNothing`), but a report in progress still queues its row, creates a worker and
  has its callbacks called (`EventSystem.CallAfterError`). `EventSystem.NoCallFollowsIff` says exactly when no call
  follows any more.
- The parser tests for the end of the array with a 32-bit sum (`core/src/message.c:266`), which overflows when the
  properties end less than four bytes before the largest int32. It then reads outside the array:
  `Messages.ReadsPastEndIff` says exactly when, `Messages.LongArrayReadsPastEnd` is such an array, and no array of at most
  INT32_MAX - 4 bytes is one.
- A second `BLEIO_Seq_Run` is not only refused: it puts the sequence into the error state and so ends its periodic reads
  (`BleSequence.SecondRunStopsTimers`). With nothing but WRITE_AT_EXIT instructions the first run returns a variable that
  was never set; the model takes its value as a parameter.

## Model

| member | source | states |
|---|---|---|
| Messages.DecodeIffEncode | core/src/message.c:306-582 | For every array of up to INT32_MAX bytes: the code returns the message m exactly when the array is the encoding of m and m has unique keys. |
| Messages.DecodeOfEncode | core/src/message.c:468-582 | Every message with unique keys and a size within int32 is read back with the same properties in order and the same content. |
| Messages.EncodeOfDecode | core/src/message.c:306-466 | Accepted bytes are canonical: encoding what was read gives them back byte for byte. |
| Messages.WireFormatIsInjective | core/src/message.c:306-466 | No two different accepted arrays are read as the same message. |
| Messages.AcceptedBounds | core/src/message.c:386-449 | An accepted array has at most (size - 14) / 2 properties and its content length is what remains after them. |
| Messages.LayoutIs | core/src/message.c:536-577 | The encoding has 0xA1 0x60, its own size, the number of properties and the content with its length at their places, as big-endian numbers. |
| Messages.SmallestArray | core/tests/gwmessage_ut/gwmessage_ut.c:187-193 | The empty message is the array the unit test calls minimal. |
| Messages.SampleArray | core/tests/gwmessage_ut/gwmessage_ut.c:204-251 | Byte for byte the array of a message with two properties of the test data and two bytes of content. |
| Messages.PastEndIff | core/src/message.c:266 | The 32-bit test for four bytes at a position is right exactly when the position is at most INT32_MAX - 4. |
| Messages.ReadsPastEndIff | core/src/message.c:263-283 | The code reads outside the array exactly when the properties end beyond INT32_MAX - 4, and never on arrays of at most INT32_MAX - 4 bytes; otherwise it returns what the format says. |
| Messages.LongArrayReadsPastEnd | core/src/message.c:263-283 | An array of INT32_MAX bytes on which the test passes and the read goes past the end. |
| Messages.ToByteArray | core/src/message.c:468-582 | The sizing call returns the size of the encoding; the filling call writes all of the encoding and leaves the bytes behind it alone; a buffer that is too small is refused. |
| Messages.CreateFromByteArray | core/src/message.c:306-466 | On arbitrary bytes and sizes: a message is returned exactly when the bytes encode it; the code reads past the array exactly when the properties end beyond INT32_MAX - 4, and NULL is returned in all other cases. |
| Messages.ParseProperties | core/src/message.c:392-432 | The property loop accepts and rejects what the functional parser does, without reading outside the array. |
| Messages.ParseInt32 | core/src/message.c:263-283 | Up to position INT32_MAX - 4 four bytes are read big-endian as a signed number, or refused if they are not in the array; beyond it the test passes and the read is outside the array. |
| Messages.ParseString | core/src/message.c:285-303 | The bytes up to the first NUL are returned; failure means there is no NUL. |
| Frames.DataFrameDelivered | core/src/broker.c:257-284 | No worker takes a published frame for its quit request; it reads back the message published. |
| Frames.QuitFrameReceived | core/src/broker.c:257-284 | A quit frame stops its own worker and is ignored by every other. |
| Frames.HandleBytesInjective | core/src/broker.c:879 | Different handles have different topics. |
| Frames.DataFrameMatches | core/src/broker.c:705-718 | A published frame matches a socket exactly when the socket subscribed to its source's handle; GUID topics never match it. |
| Frames.MatchesIff | core/src/broker.c:388-394 | A frame passes a socket exactly when it begins with the socket's GUID or with the bytes of a subscribed handle. |
| Frames.QuitFrameMatchesOwn | core/src/broker.c:428-436 | A module's quit frame passes its own socket. |
| PubSubBroker.Broker.Locate | core/src/broker.c:647-664 | A handle is found exactly when it is in the table, with its own socket. |
| PubSubBroker.Broker.AddModule | core/src/broker.c:483-576 | Adds a socket without subscriptions, or changes nothing and says why. |
| PubSubBroker.Broker.RemoveModule | core/src/broker.c:588-645 | Offers the module's quit frame to all, if it can be sent, and drops its socket; an unknown module is an error that changes nothing. |
| PubSubBroker.Broker.AddLink | core/src/broker.c:666-727 | Adds one subscription of the sink to the source, or changes nothing and says why. |
| PubSubBroker.Broker.RemoveLink | core/src/broker.c:729-789 | Takes one subscription away; an absent one is reported and changes nothing. |
| PubSubBroker.Broker.Publish | core/src/broker.c:830-910 | Offers handle ++ encoding to every subscribed socket that does not drop it; if the buffer cannot be had or the frame not be sent whole it is an error that changes nothing. |
| PubSubBroker.Broker.DecRef | core/src/broker.c:791-828 | The last reference, and no other, frees the broker. |
| PubSubBroker.OfferIs | core/src/broker.c:884-899 | A frame goes to the end of the inbox of exactly the sockets it passes and is not lost for; nothing else changes. |
| PubSubBroker.BuildFrame | core/src/broker.c:869-882 | The buffer holds the handle and then the encoding, and nothing else. |
| PubSubBroker.ModuleWorker | core/src/broker.c:215-292 | Hands over the messages of the frames up to the first quit frame of this module, and stops there. |
| PubSubBroker.WorkerPreservesMessages | core/src/broker.c:215-292 | Any sequence of published messages reaches the module complete, in order and unchanged. |
| PubSubBroker.WorkerHandles | core/src/broker.c:215-292 | Of publications and foreign quit frames, in any order and before its own quit frame, the worker hands over all publications in order; what comes after its own quit frame it never looks at. |
| GatewayModel.FailedAddModuleChangesNothing | core/src/gateway_ll.c:614-738 | The failure branches of the specified addition leave modules, links, subscriptions and all counts as they were. |
| GatewayModel.AddModuleKeeps | core/src/gateway_ll.c:592-750 | A module addition keeps the state well formed, the routing safe and, if it was, exact. |
| GatewayModel.AddRegularKeeps | core/src/gateway_ll.c:1056-1108 | A regular link addition does so too, and changes nothing if it fails. |
| GatewayModel.AddAnySourceKeeps | core/src/gateway_ll.c:1002-1054 | A wildcard link addition keeps the routing safe, and exact if and only if it does not fail at a module from which on some other has a regular link to the same sink. |
| GatewayModel.RemoveLinkAtKeeps | core/src/gateway_ll.c:1155-1202 | A link removal keeps the state well formed, the routing safe and, if it was, exact, also where wildcard and regular links overlap. |
| GatewayModel.RemoveModuleKeeps | core/src/gateway_ll.c:945-1000 | A module removal takes away exactly the links naming it and the subscriptions from and to it, and no subscription of another pair. |
| GatewayModel.ApplyKeeps | core/src/gateway_ll.c:592-1202 | Each operation keeps the state well formed and the routing safe, and an exact routing exact if and only if it is not the failed wildcard addition on an overlap. |
| GatewayModel.RunsAreSafe | core/src/gateway_ll.c:592-1202 | In every state of every run names are unique and not "*", links are unique and live, the broker's count is one more than the modules, loads and unloads balance, and no subscription is there that the link graph does not ask for. |
| GatewayModel.RunsAreExact | core/src/gateway_ll.c:592-1202 | While no wildcard addition fails on an overlap, each pair's subscription count is [regular link] + [wildcard link and source is not the sink]. |
| GatewayModel.RollbackLosesSubscription | core/src/gateway_ll.c:1046-1050 | A concrete run after which a link of the graph has no subscription. |
| GatewayModel.WildcardAlwaysExactIff | core/src/gateway_ll.c:1002-1054 | Whatever is refused, adding a wildcard link to a sink keeps routing exact exactly when no other module has a regular link to it. |
| GatewayLaws.RemoveLinkIs | core/src/gateway_ll.c:531-556 | By names: afterwards there is no link from that source (or wildcard) to that sink, every other link is there in the same order, the counts drop only for the pairs of that link, and nothing changes if there was none. |
| GatewayLaws.AddLinkSucceedsIff | core/src/gateway_ll.c:501-529 | By names: a link is added exactly when both names exist (or the source is the wildcard), it is not there yet, and memory and subscriptions are not refused. |
| GatewayLaws.AddLinkIs | core/src/gateway_ll.c:1002-1108 | An added link is the named one, at the end of the list, and adds one subscription for each pair it stands for and for no other. |
| GatewayLaws.AddModuleSucceedsIff | core/src/gateway_ll.c:614-738 | A module is added exactly when its name is usable and new, everything its creation needs can be had, and no wildcard sink's subscription to it is refused. |
| GatewayLaws.AddModuleIs | core/src/gateway_ll.c:657-738 | An added module stands at the end of the list under its name and handle, every wildcard sink subscribes to it once, and all else is as before. |
| GatewayLaws.RemoveModuleIs | core/src/gateway_ll.c:945-1000 | Takes the module with this handle, the links that touch it and the subscriptions from and to it, and no more; nothing if there is none. |
| GatewayLaws.RemoveModuleByNameIs | core/src/gateway_ll.c:472-499 | Succeeds exactly when a module has the name, and then it is that module that is gone. |
| GatewayLL.Gateway.AddModule | core/src/gateway_ll.c:389-750 | Does to the gateway and the broker what GatewayModel.AddModule does to their value, through every failure branch and its rollback; when it returns NULL modules, links, subscriptions and all counts are as before. |
| GatewayLL.Gateway.AttachModule | core/src/gateway_ll.c:657-738 | The part after Module_Create: on any failure modules, counts and subscriptions are back where they were. |
| GatewayLL.Gateway.AddModuleToAnySource | core/src/gateway_ll.c:792-825 | Subscribes every wildcard sink to the new module once, or leaves the table as it was. |
| GatewayLL.Gateway.RemoveModuleFromAnySource | core/src/gateway_ll.c:945-968 | Unsubscribes every wildcard sink from the module once and touches nothing else. |
| GatewayLL.Gateway.AddLink | core/src/gateway_ll.c:501-529 | Refuses missing names and links that exist; otherwise does what GatewayModel.AddLink does. |
| GatewayLL.Gateway.AddAnySourceLink | core/src/gateway_ll.c:1002-1054 | Does what GatewayModel.AddAnySourceLink does, the rollback included. |
| GatewayLL.Gateway.SubscribeAll | core/src/gateway_ll.c:1024-1045 | Subscribes the sink to the other modules in order and stops at the first one refused. |
| GatewayLL.Gateway.RemoveAnySourceLink | core/src/gateway_ll.c:1155-1179 | Unsubscribes the sink once from every module but itself. |
| GatewayLL.Gateway.AddRegularLink | core/src/gateway_ll.c:1056-1108 | Does what GatewayModel.AddRegularLink does, with the broker told first and the link recorded after. |
| GatewayLL.Gateway.RemoveLinkInternal | core/src/gateway_ll.c:1181-1202 | Does what GatewayModel.RemoveLinkAt does. |
| GatewayLL.Gateway.RemoveLink | core/src/gateway_ll.c:531-556 | Does what GatewayModel.RemoveLink does, which GatewayLaws.RemoveLinkIs says by names. |
| GatewayLL.Gateway.EraseLinks | core/src/gateway_ll.c:945-985 | The two removal passes leave exactly the links not naming the module and, on the sockets that stay, exactly the subscriptions not naming it. |
| GatewayLL.Gateway.RemoveModuleInternal | core/src/gateway_ll.c:970-1000 | Does what GatewayModel.RemoveModuleAt does; the loop ends because links shrink. |
| GatewayLL.Gateway.RemoveModule | core/src/gateway_ll.c:445-470 | Removes the module with this handle, or changes nothing. |
| GatewayLL.Gateway.RemoveModuleByName | core/src/gateway_ll.c:472-499 | Removes the module with this name, or reports that there is none. |
| GatewayLL.Gateway.Destroy | core/src/gateway_ll.c:888-943 | Leaves no module, link, socket, loaded library or instance and frees the broker with the gateway's own reference. |
| GatewayLL.Gateway.GetModuleList | core/src/gateway_ll.c:88-195 | The list of the gateway's modules and sources, refused exactly as in GatewaySnapshot.GetModuleList. |
| GatewayCreate.Create | core/src/gateway_ll.c:217-349 | Returns a gateway with everything it was given exactly when memory, broker, vectors and event system can be made and nothing fails to be added; otherwise whatever was made is destroyed again completely. |
| GatewayCreate.CreatedIsExact | core/src/gateway_ll.c:217-349 | A created gateway has exactly its modules and links, in order, and exactly the subscriptions they ask for. |
| GatewaySnapshot.GetModuleList | core/src/gateway_ll.c:88-195 | Lists every module with the names of its regular sources in link order, or no vector for a wildcard; refused exactly when memory runs out or a regular link comes after a wildcard link to its sink. |
| GatewaySnapshot.OrderDecides | core/src/gateway_ll.c:172-185 | The same two links are listed in one order and refused in the other. |
| GatewaySnapshot.ListingIsRefused | core/src/gateway_ll.c:172-185 | A concrete run without any failure reaches a gateway whose modules cannot be listed. |
| Delivery.DeliveryIsSound | core/src/broker.c:215-292 | Whatever a module receives in any run, also while it is being removed, was published with the same properties and content by a module of the gateway then linked to it, directly or by a wildcard that is not itself; nothing twice, nothing out of order. |
| Delivery.DeliveryIsComplete | core/src/broker.c:830-910 | While no wildcard addition has failed on an overlap, a published message is received by, or still waiting for, every module linked to the publisher that the frame reaches and that stays attached. |
| Delivery.LeavingIsOffered | core/src/broker.c:588-645 | A module being removed keeps the frames it had and is offered its own quit frame. |
| Delivery.WorkersOnlyReadPublications | core/src/broker.c:257-284 | In no run is a waiting frame that reaches a worker anything but a publication or another module's quit frame, and it is treated as such. |
| Delivery.DrainDelivers | core/src/broker.c:428-481 | A module being removed can still hand over every publication it has waiting, one by one, before its quit frame. |
| Delivery.PublicationReachesExactlyLinked | core/src/broker.c:830-906 | In an exact state a publication matches the sockets of the linked sinks and no others. |
| BroadcastBroker.StepKeeps | core/src/broadcast_broker.c:134-666 | Every step of every thread keeps the invariant on locks, wake-ups, delivery and references. |
| BroadcastBroker.DeliveryIsExact | core/src/broadcast_broker.c:577-666 | In every interleaving delivered ++ in flight ++ queued is, in order, what was published for the module since it joined and pushed; with no failed push, everything but its own messages. |
| BroadcastBroker.QueueIsDelivered | core/src/broadcast_broker.c:134-215 | With no call in progress a worker's own steps hand over everything its module was given, unless its handler waits to publish. |
| BroadcastBroker.NoLostWakeup | core/src/broadcast_broker.c:148-203 | A worker blocked in Condition_Wait has an empty queue and was not told to quit, or the lock holder has yet to post. |
| BroadcastBroker.LocksAreExclusive | core/src/broadcast_broker.c:134-215 | Worker and caller never hold a queue's lock together, and a worker ends only when its module is being removed. |
| BroadcastBroker.ClonesAreCounted | core/src/message.c:162-257 | A message's count is its external holders plus the clone in hand, the queue entries and the deliveries in flight; when every module is gone only the external holders are left. |
| BroadcastBroker.NoUseAfterFree | core/src/message.c:236-257 | A message queued, handled or being published has a positive count. |
| BroadcastBroker.LeavingCounts | core/src/broadcast_broker.c:352-364 | Taking a stopped and drained module off the list leaves every count right, so it holds no clone any more. |
| BroadcastBroker.JoinReturnsIff | core/src/broadcast_broker.c:484-522 | The join in RemoveModule can return exactly when the module's handler is not waiting in Broker_Publish. |
| BroadcastBroker.JoinReturns | core/src/broadcast_broker.c:311-350 | Then a few steps of that worker alone are enough. |
| BroadcastBroker.JoiningStep | core/src/broadcast_broker.c:311-350 | No other thread sets the worker back while it is joined; each of its own steps brings it closer to its end. |
| BroadcastBroker.BlockedForever | core/src/broadcast_broker.c:484-522 | A removal blocked by its own handler stays so whatever any thread does. |
| BroadcastBroker.RemovalCanBlock | core/src/broadcast_broker.c:484-522 | Such a state is reached by a concrete run. |
| BroadcastBroker.SilentHandlerNeverBlocks | core/src/broadcast_broker.c:484-522 | In no run does a module whose handler never publishes block its removal. |
| BroadcastBroker.RemovalReturns | core/src/broadcast_broker.c:311-350 | In every run from the join on, the worker of such a module can go on and has ended after at most four steps of its own. |
| BroadcastDelivery.GivenIsPublished | core/src/broadcast_broker.c:577-666 | In every run a module has been given, each once and in order of publication, exactly the messages published since it joined whose source is NULL or another module and whose push to it did not fail, up to a publication that is still on its way to it. |
| BroadcastDelivery.SilentModuleGetsAll | core/src/broadcast_broker.c:577-666 | A module that published nothing and missed no push is given everything published since it joined. |
| BroadcastDelivery.LogIsCalls | core/src/broadcast_broker.c:577-611 | The publications are the calls of Broker_Publish of the run, with their sources and messages, in order. |
| BroadcastDelivery.NothingMissed | core/src/broadcast_broker.c:618-646 | Without a failed push no module misses any publication. |
| BroadcastDelivery.AddedModule | core/src/broadcast_broker.c:366-450 | A module added has its own number and handle, an empty queue, and joins at the publications made so far; the others stay as they are. |
| BroadcastDelivery.RemovalBegins | core/src/broadcast_broker.c:471-499 | A removal is of the module that was named, and at first changes nothing else. |
| BroadcastDelivery.RemovalIs | core/src/broadcast_broker.c:311-364 | Until it ends all modules stay, whatever any thread does; then the named module and no other leaves the list. |
| BroadcastDelivery.PublishReturns | core/src/broadcast_broker.c:577-666 | From every reachable state in which a caller publishes, some continuation brings that call to its end. |
| EventSystem.StepKeeps | core/src/internal/event_system.c:129-403 | Every step of every thread keeps the invariant on rows, threads and reports. |
| EventSystem.DispatchIsFifo | core/src/internal/event_system.c:333-392 | Rows are dispatched in the order queued; the calls made are each dispatched row's callbacks in order, once. |
| EventSystem.CallsAreRegistered | core/src/internal/event_system.c:152-215 | Every callback called was registered for its event, or is the one that frees the module list. |
| EventSystem.OneWorkerAtMost | core/src/internal/event_system.c:300-328 | callback_thread and destroyed_thread are never both set, one thread at most has not ended, none is joined twice. |
| EventSystem.DestroyLeavesNothing | core/src/internal/event_system.c:226-281 | When Destroy returns every thread ever created has ended and was joined exactly once, and the rows queued are those dispatched followed by those freed. |
| EventSystem.DestroyReturns | core/src/internal/event_system.c:226-281 | Destroy can always return, and dispatches every row first unless the worker had made its last look at the queue. |
| EventSystem.ServedIff | core/src/internal/event_system.c:377-403 | Without further reports waiting rows are dispatched exactly when the worker will look at the queue again. |
| EventSystem.ReportLeavesWorker | core/src/internal/event_system.c:283-331 | A report that queued its row leaves a worker exactly unless there is none and none can be made; the worker misses the row only if it is already retiring. |
| EventSystem.RowCanBeStranded | core/src/internal/event_system.c:381-400 | A concrete run leaves a row waiting with no error and nobody to serve it. |
| EventSystem.ErrorIsFinal | core/src/internal/event_system.c:152-215 | Once an error has happened it is never forgotten. |
| EventSystem.ErroredStartsNothing | core/src/internal/event_system.c:160-170 | After an error a new report changes nothing. |
| EventSystem.CallAfterError | core/src/internal/event_system.c:283-331 | A concrete run in which, after an error and with nothing queued, a row is queued, a worker created and a callback called. |
| EventSystem.NoCallFollowsIff | core/src/internal/event_system.c:283-403 | After an error no call follows in any continuation exactly when no report has a row still to queue, the worker has no callback left to start, and waiting rows find neither a worker that will fetch them nor a report that can create one. |
| EventSystem.CallFollows | core/src/internal/event_system.c:283-403 | In every other state some continuation makes a call. |
| EventLaws.RegisterIs | core/src/internal/event_system.c:129-150 | A successful registration appends its callback to its own event and to no other; a failed one is an error and registers nothing. |
| EventLaws.StartIs | core/src/internal/event_system.c:152-215 | A report is accepted exactly when there was no error, a callback is registered and memory suffices; its row then lists all callbacks registered for the event, in order, followed for a module list by the one that frees it. |
| EventLaws.FinishIs | core/src/internal/event_system.c:283-331 | At the end of a report a thread is made exactly when its row was queued, there is none and one can be made; failing that is the error. |
| EventLaws.EnqueueIs | core/src/internal/event_system.c:333-343 | The row of the report goes to the end of the queue, or nothing does. |
| EventLaws.NoDelayAfterDestroy | core/src/internal/event_system.c:226-281 | Once Destroy was called the worker waits for no timeout any more. |
| EventLaws.CallsOfReport | core/src/internal/event_system.c:377-403 | The calls made for a report are a beginning of its row's list, and the whole list when the row is dispatched. |
| EventLaws.ReportedIsCalled | core/src/internal/event_system.c:152-403 | In every run: the row of an accepted report lists every callback registered for the event at that moment, in order; its calls are a beginning of that list, each once, and all of it once the row is dispatched. |
| BleSequence.ApplyKeeps | modules/ble/src/bleio_seq_linux.c:157-441 | Every call, completion and tick keeps the invariant on references, buffers and submissions, also when requests complete inside the call that submits them. |
| BleSequence.HandleSurvives | modules/ble/src/bleio_seq_linux_schedule_read.c:95-101 | Before Destroy no call, completion or tick frees the handle, whatever completes inside it. |
| BleSequence.SubmitKeeps | modules/ble/src/bleio_seq_linux_schedule_write.c:95-103 | Each single submission inside Run or Destroy keeps the invariant and the handle, whether it is refused, goes on or completes at once. |
| BleSequence.ReferencesAreCounted | modules/ble/src/bleio_seq_linux.c:157-236 | The count is one until Destroy plus pending reads, writes and timers, so nothing pending finds the handle freed and on_destroy_complete is called once, when all has ended. |
| BleSequence.BuffersAreFreedOnce | modules/ble/src/bleio_seq_linux_schedule_write.c:54-73 | Buffers are deleted as often as they were handed over, on completion or at the end but not both; a pending write has its buffer. |
| BleSequence.WriteFreesItsBuffer | modules/ble/src/bleio_seq_linux_schedule_write.c:54-73 | A completed write deletes the buffer of its element, which is then no longer there to be deleted at the end. |
| BleSequence.ExitsOnlyAfterDestroy | modules/ble/src/bleio_seq_linux.c:195-236 | No element is submitted twice, and WRITE_AT_EXIT elements by Destroy only. |
| BleSequence.DestroySubmitsExits | modules/ble/src/bleio_seq_linux.c:210-226 | Destroy submits every WRITE_AT_EXIT element that is accepted. |
| BleSequence.CountsDown | modules/ble/src/bleio_seq_linux.c:157-193 | After Destroy each completion or tick gives up one reference, and the last one reports the end. |
| BleSequence.RunSubmits | modules/ble/src/bleio_seq_linux.c:286-342 | The first run submits each element once, by its kind, up to the first refusal, each being in progress or completed at once; it succeeds exactly when none is refused. |
| BleSequence.SecondRunStopsTimers | modules/ble/src/bleio_seq_linux.c:300-338 | A second run submits nothing, and the timers end at their next tick. |
| BleSequence.SubmitEffect | modules/ble/src/bleio_seq_linux.c:238-284 | A submitted element makes one read, one write or one timer by its kind, with the reference, the progress and the buffer that go with it. |
| BleLaws.TickReads | modules/ble/src/bleio_seq_linux_schedule_periodic.c:35-60 | A tick while the sequence runs asks for one read of the timer's instruction: accepted it is in progress with a reference or has completed, refused it changes nothing; the timer goes on. |
| BleLaws.TickEnds | modules/ble/src/bleio_seq_linux_schedule_periodic.c:62-75 | In any other state the tick asks for nothing, ends that timer and gives up its reference. |
| BleLaws.TimersRead | modules/ble/src/bleio_seq_linux_schedule_periodic.c:29-76 | In every run a periodic instruction has been read exactly as often as its timer ticked while the sequence ran and the read was accepted. |
| BleLaws.ReadEnds | modules/ble/src/bleio_seq_linux_schedule_read.c:27-74 | A completed read ends that read and no other operation. |
| BleLaws.WriteEnds | modules/ble/src/bleio_seq_linux_schedule_write.c:27-76 | A completed write ends that write and no other operation. |
| BleLaws.AddIs | modules/ble/src/bleio_seq_linux.c:362-441 | An instruction is taken on exactly if it is complete, the sequence runs and the request is accepted; it then reads or writes once, starts a timer or waits for the exit. |
| BleLaws.DestroyIs | modules/ble/src/bleio_seq_linux.c:195-236 | Destroy asks for the write of each element for the exit, leaves all else in progress alone and keeps the callback it was given. |
| BleLaws.DestroyReports | modules/ble/src/bleio_seq_linux.c:157-236 | After Destroy the callback is called once, by the operation that gives up the last reference, and only if one was given. |
| BleIoSeq.Handle.DecRefHandle | modules/ble/src/bleio_seq_linux.c:157-193 | Does what BleSequence.DecRef does: the last reference reports, frees what is left and ends the handle. |
| BleIoSeq.Handle.ScheduleRead | modules/ble/src/bleio_seq_linux_schedule_read.c:76-128 | Takes a reference before the request and gives it back when it is refused or completes at once. |
| BleIoSeq.Handle.ScheduleWrite | modules/ble/src/bleio_seq_linux_schedule_write.c:78-134 | Takes a reference before the request and gives it back when it is refused or, after deleting the buffer, completes at once. |
| BleIoSeq.Handle.SchedulePeriodic | modules/ble/src/bleio_seq_linux_schedule_periodic.c:78-131 | Takes a reference for a timer that was started and none otherwise. |
| BleIoSeq.Handle.ScheduleInstruction | modules/ble/src/bleio_seq_linux.c:238-284 | Submits an instruction by its kind; WRITE_AT_EXIT is only remembered. |
| BleIoSeq.Handle.Run | modules/ble/src/bleio_seq_linux.c:286-342 | Does what BleSequence.Run does and returns what it says, in every state. |
| BleIoSeq.Handle.AddInstruction | modules/ble/src/bleio_seq_linux.c:362-441 | Submits an acceptable instruction in the running state, or changes nothing. |
| BleIoSeq.Handle.Destroy | modules/ble/src/bleio_seq_linux.c:195-236 | Does what BleSequence.Destroy does. |
| BleIoSeq.Handle.OnReadComplete | modules/ble/src/bleio_seq_linux_schedule_read.c:27-74 | Ends the read and gives up its reference. |
| BleIoSeq.Handle.OnWriteComplete | modules/ble/src/bleio_seq_linux_schedule_write.c:27-76 | Deletes the buffer while its instruction still exists, ends the write and gives up its reference. |
| BleIoSeq.Handle.OnTimer | modules/ble/src/bleio_seq_linux_schedule_periodic.c:29-76 | Does what BleSequence.Tick does, which BleLaws.TickReads and BleLaws.TickEnds say: reads again while the sequence runs, otherwise ends the timer. |
| BleIoSeq.ValidateInstructions | modules/ble/src/bleio_seq_linux.c:90-155 | Accepts a vector exactly when every instruction is acceptable. |
| BleIoSeq.ValidateInstruction | modules/ble/src/bleio_seq_linux.c:90-130 | Accepts exactly the instructions with a non-empty characteristic and the interval or buffer their kind needs. |
| BleIoSeq.Create | modules/ble/src/bleio_seq_linux.c:26-77 | Returns a fresh idle sequence exactly when the arguments are valid and memory suffices. |
| GioAsyncSeq.RunTellsStory | modules/ble/src/gio_async_seq.c:315-466 | A run starts the operations in list order, each with the previous result, finishes each by its own callback, and completes after the last or stops at the first failure. |
| GioAsyncSeq.AddedIsCalled | modules/ble/src/gio_async_seq.c:155-466 | What is added and run is what is called: operation k starts with the callback of pair k, the context of the call that added it and the result before it, and is finished by the finish callback of pair k. |
| GioAsyncSeq.AddedSays | modules/ble/src/gio_async_seq.c:155-278 | Pairs are added exactly in the pending state, if all have finish callbacks and memory suffices, each as it was given; otherwise nothing is. |
| GioAsyncSeq.LateResult | modules/ble/src/gio_async_seq.c:452-457 | A result outside a run is reported as an error and starts nothing. |
| GioAsyncSeq.ApplyKeeps | modules/ble/src/gio_async_seq.c:248-466 | Nothing called in between disturbs a run, its index stays in the list, and list length minus index goes down with every result. |
| GioAsyncSeq.IndexInList | modules/ble/src/gio_async_seq.c:155-466 | In every run of calls the index is within the list while the sequence runs. |
| GioAsyncSeq.AsyncSeq.Add | modules/ble/src/gio_async_seq.c:155-278 | Appends all pairs in order, or leaves the list exactly as it was. |
| GioAsyncSeq.AsyncSeq.RunAsync | modules/ble/src/gio_async_seq.c:315-379 | Starts at the first operation from every state but the running one; an empty list completes at once. |
| GioAsyncSeq.AsyncSeq.ResolveCallback | modules/ble/src/gio_async_seq.c:381-466 | Advances, completes or fails as GioAsyncSeq.Resolve says; a result outside a run is an error. |
| PropertyMaps.PutLaws | modules/identitymap/src/identitymap.c:427-439 | Map_AddOrUpdate sets one key, leaves the others and keeps keys unique. |
| PropertyMaps.DeleteLaws | modules/identitymap/src/identitymap.c:445-504 | Map_Delete removes one key, leaves the others and keeps keys unique. |
| PropertyMaps.PutInPlace | modules/identitymap/src/identitymap.c:427-439 | A key that is there keeps its place, and so do all others. |
| PropertyMaps.PutAtEnd | modules/identitymap/src/identitymap.c:427-439 | A new key goes to the end. |
| PropertyMaps.DeleteAt | modules/identitymap/src/identitymap.c:445-504 | The others keep their order. |
| IdentityMaps.StrCmpZero | modules/identitymap/src/identitymap.c:171-185 | strcmp is zero exactly on equal strings, and changes sign with its arguments. |
| IdentityLaws.StrCmpOrders | modules/identitymap/src/identitymap.c:171-185 | strcmp is negative exactly when, at the first place where the strings differ, the first has the smaller byte or ends. |
| IdentityMaps.IsCanonicalMac | modules/identitymap/src/identitymap.c:127-166 | Accepts exactly the strings XX:XX:XX:XX:XX:XX with hexadecimal digits of either case. |
| IdentityMaps.ValidateConfig | modules/identitymap/src/identitymap.c:190-230 | Accepts exactly the non-empty configurations with all fields set and canonical MAC addresses. |
| IdentityMaps.Create | modules/identitymap/src/identitymap.c:235-339 | Makes a module, with both arrays sorted permutations of the upper-cased configuration, exactly when the arguments are valid and memory suffices. |
| IdentityMaps.QSort | modules/identitymap/src/identitymap.c:326-329 | The array is sorted and a permutation of what it was. |
| IdentityMaps.BSearch | modules/identitymap/src/identitymap.c:580-619 | Finds an element with the key exactly when there is one. |
| IdentityMaps.FindUnique | modules/identitymap/src/identitymap.c:580-583 | With distinct keys the linear search of the configuration finds the one element with the key. |
| IdentityMaps.IdentityMap.Receive | modules/identitymap/src/identitymap.c:555-639 | Publishes exactly the answer to a request the configuration can answer, and nothing for any other message; IdentityLaws.AnsweredIff says which messages those are. |
| IdentityMaps.AnswerIsLinear | modules/identitymap/src/identitymap.c:555-639 | With distinct keys the binary search answers as the linear search of the configuration does. |
| IdentityMaps.DeviceAnswerSays | modules/identitymap/src/identitymap.c:404-458 | To the cloud: the identity found is set, the MAC address gone, the content and all other properties kept. |
| IdentityMaps.CloudAnswerSays | modules/identitymap/src/identitymap.c:463-517 | To the device: the MAC address is set, name and key gone, the content and all other properties kept. |
| IdentityMaps.AnswerIsIgnored | modules/identitymap/src/identitymap.c:520-550 | A message the map published is ignored when it comes back. |
| IdentityMaps.MacToIdToMac | modules/identitymap/src/identitymap.c:555-639 | With distinct ids a reply to the device name a message was given reaches that message's MAC address. |
| IdentityMaps.IdToMacToId | modules/identitymap/src/identitymap.c:555-639 | With distinct MAC addresses any reply the map looks at, from the MAC address a message was given, carries that message's device name, if the two addresses have the same key; IdentityLaws.NameComesBack says so by their digits. |
| IdentityLaws.SameKeyIff | modules/identitymap/src/identitymap.c:45-65 | Two addresses have the same key exactly when their digits have the same values, in whatever case they are written. |
| IdentityLaws.AnsweredIff | modules/identitymap/src/identitymap.c:520-639 | A message is answered exactly when the configuration has an entry it asks for: from a device other than the hub and the map, without both name and key, by the digits of its address; from the hub by the device name. |
| IdentityLaws.AnswerComesFrom | modules/identitymap/src/identitymap.c:404-517 | The answer carries the identity, or the address in upper case, of an entry that the message asks for. |
| IdentityLaws.DeviceIsIdentified | modules/identitymap/src/identitymap.c:588-619 | With distinct addresses a device message with the digits of a configured address is answered with the name and key of that entry. |
| IdentityLaws.CloudIsAddressed | modules/identitymap/src/identitymap.c:567-587 | With distinct names a message to a configured device is answered with that entry's address. |
| IdentityLaws.AddressComesBack | modules/identitymap/src/identitymap.c:555-639 | What the cloud sends to the name a message was given goes to the address that message came from. |
| IdentityLaws.NameComesBack | modules/identitymap/src/identitymap.c:555-639 | What a device sends from the address a message went to, in whatever case, carries the name and key that message was sent to. |
| IdentityLaws.NamesAre | modules/identitymap/src/identitymap.c:404-639 | The property names and sources are the strings of the messages, character by character. |

## Left out

- JSON configuration, language bindings, logging, samples, UWP builds, and modules that only do device, process or network I/O.
- `module_loader.c` and dynamic libraries: only the balance of loads and unloads is counted.
- Gateway_LL_Start and Gateway_LL_StartModule: they call the modules' start functions; the reports gateway operations make to the event system are not connected with them.
- Failures of lock, unlock, signal and join calls in the concurrent models, and memory running out inside the parser, in the message constructors and in Message_Clone.
- Message_Create and Message_CreateFromBuffer: they copy their arguments; the reference count of messages is modelled in BroadcastBroker.
- Real time: the idle timeout, timer periods and spurious wake-ups are steps that may happen at any moment.
- Order in memory: handles are copied little-endian; every statement but the byte order itself holds for any injective layout.
- PubSubBroker.Broker.AddModule: asks for a handle that is not attached yet, which Module_Create guarantees; the list of the C code would hold it twice.
- PubSubBroker.Broker.Publish: asks for a message whose frame fits in int32, as the sizes of the wire format and of nn_allocmsg do.
- PubSubBroker.ModuleWorker: the frames nn_recv returns are its argument, and a closed socket is the end of that sequence.
- GatewayLL.Gateway.Destroy: the report of GATEWAY_DESTROYED and the end of the event system before it are not part of it; EventSystem has that end.
- Delivery.DeliveryIsSound: gateway operations happen between publications and turns of workers, not in the middle of them, except that a removed module drains while publishers and workers go on; a frame may be dropped, so what must arrive is in Delivery.DeliveryIsComplete.
- BroadcastBroker.StepKeeps: modelled on values, because the point is the interleaving of threads; a handler may publish but not add or remove modules.
- EventSystem.StepKeeps: modelled on values for the same reason; reading the callback vector is one step, and the module list a freed row carries is not followed.
- BleSequence.ApplyKeeps: vector elements are named by index, so neither the moving of elements when the vector grows nor the freeing of an instruction added at run time, while a read still uses it, is modelled; the callbacks of requests that complete inside a call do not call the sequence themselves, and a timer that fires inside the call that starts it is one that ticks right after.
- BleIoSeq.Handle.Destroy: is called once, as the API asks, and the handle is not used by its owner afterwards.
- GioAsyncSeq.AsyncSeq.Add: the argument list is its pairs up to the terminating NULL; the missing terminator of a malformed call is not modelled.
- IdentityMaps.QSort: the order of equal keys, which the C library leaves open, is that of insertion.
