# Verified model of the svitock chat server

This project models, in Dafny, the part of the svitock chat server in which correctness depends on the
order of events: the actor pipeline that carries a chat message from a WebSocket frame to the message
store and to the clients, the transport registry and write queues of the WebSocket sessions, and two
smaller pieces of string and machine arithmetic, the token service and the connection pool.

`dafny verify dfyconfig.toml` checks everything.

## How the system is modelled

**The pipeline** (`Pipeline`) is a step machine. Its state holds the four bounded mailboxes, any number of
workers, and the logs of envelopes created, handled, leaked, freed and drained. A worker has a position in
its sweep over the actor table, the `processed` flag and possibly an envelope in hand with the sends its
handler still has to make. The steps are: a frame is read and dispatched; one worker does the next thing it
would do (test `running_`, poll a mailbox, make one send of its handler, return from the handler); the
insert of a worker in the storage handler fails; `stop`; a mailbox is destroyed after the workers were
joined. Exceptions end the process, since nothing catches them on a worker or network thread: a frame with
a member of the wrong JSON type, an id the UUID parser rejects, and a failing insert. A run is a fold over an arbitrary list of such steps,
so a statement about `Run(cfg, acts)` for all `acts` is a statement about every number of workers, every
capacity, every iteration order of the actor table and every interleaving. A step that is not enabled
changes nothing. The visible effect of a handler (a message stored, a payload posted) happens at its
return. Frames may arrive at any time, which includes every order in which the server stops its parts.
Every dispatched event has a number, the `tag` carried by everything it causes; every envelope has its own
identity.

**The network side** (`Sessions`) is a second step machine over the callbacks of the listener, of each
session's read and write operations and of the strand tasks. `EndToEnd` interleaves the two machines:
completed reads dispatch into the pipeline, completed session handlers post through the registry.

**The imperative code** is modelled a second time, in its own form, as classes with mutable fields
(`Mailboxes.Mailbox`, `Runtime.ActorSystem`, `Transport.WebSocketListener`, `Transport.SessionActor`,
`Transport.WebSocketSession`, `Pool.PostgresPool`). `ActorSystem` works on real mailboxes and carries the
pipeline machine's state beside its memory; a session object mirrors one session of the network machine and
the registry. Their methods are proved to take exactly the steps of the machines; those of the mailbox, the
listener and the pool keep the invariant the lemmas are about.

Three proofs about the pipeline share one idea, in `Accounts`: put a price on every place an envelope can
be in, and each step changes the total by a known amount. With "one coin where this envelope is" the total
is the conservation of envelopes (`Ownership`); with "the calls this envelope still has to cause" it is the
ledger of handler calls (`Ledger`); with "the steps still due" it is the drain measure (`Drain`). The order
theorem (`Fifo`, `Order`) strings the events together from the store back to the message mailbox and shows
that the line stays sorted.

Safety laws alone would hold of a server that does nothing, so each part also has a law about what it does
do: `stop` ends every worker and nothing runs afterwards (`Stopping`), what is posted to a session reaches
its wire (`Writing`), an error closes a session for good (`Closing`), a handled frame is posted or its
session was gone (`Deliveries`), and a message that is read, if nothing was lost, arrives (`Completeness`).

Where a property fails in general, the exact condition is proved. Effects of each kind happen in order in
every run if and only if there is at most one worker (or nothing is ever handled), with a schedule for the
failing case (`Overtaking`). No orderly run ends the process if and only if no handler ever runs or the
parser accepts every id (`Crashes`); both build their runs from what one worker can do alone (`Walks`). The
pool stays balanced for good if and only if its size divides 2^64; a token gives back the id it was issued
for if and only if the id is well-formed UTF-8; session ids collide exactly a multiple of 2^64 accepts
apart.

## Model

| member | source | states |
|---|---|---|
| Ledger.ScheduleIndependence | src/core/actor/actor_system.cpp:52-66 | Any quiescent run that lost nothing has completed exactly the multiset of handler calls (with event and payload) of handling each dispatched event alone and to completion, for every worker count, capacity, actor order and interleaving |
| Ledger.SchedulesAgree | src/core/actor/actor_system.cpp:52-66 | Two such runs on the same events make the same calls, under any two configurations |
| Ledger.CascadeOfSend | src/infrastructure/actors/chat_actor.cpp:14-45 | The recursive sequential reference, unfolded: a send_message causes one message call, one chat call, one persist, one echo and one recipient frame exactly if a recipient is named |
| Ledger.RunBalanced | src/core/actor/actor_system.cpp:18-66 | In every reachable state, drops included: calls completed + calls still due in queues and hands + calls lost with refused or drained envelopes = calls of the sequential reference, for every call |
| Ledger.HandlerBound | src/infrastructure/actors/message_actor.cpp:12-23 | n dispatched events cause at most 5n handler calls in any schedule |
| Ledger.Provenance | src/infrastructure/actors/chat_actor.cpp:14-45 | Whatever was persisted, echoed or forwarded was caused by a dispatched send_message and carries its fields unchanged; a recipient frame exists only if a recipient was named |
| Ledger.AtMostOnce | src/infrastructure/actors/chat_actor.cpp:14-45 | In every reachable state no event has been persisted twice, echoed twice or forwarded twice |
| Ledger.CrashNeedsBadId | src/infrastructure/actors/storage_actor.cpp:15-28 | If the process ended, a frame had a member of the wrong type, an insert failed, or some dispatched send_message had a chat or sender id the UUID parser rejects |
| Crashes.CrashFreeExactly | src/infrastructure/actors/storage_actor.cpp:20-26 | With well-typed frames and no failing insert, no run ends the process if and only if there is no worker, or the capacity is zero, or the parser accepts every id |
| Crashes.CrashFreeWithFailingStore | src/infrastructure/actors/storage_actor.cpp:28-31 | If inserts may fail, no run ends the process if and only if there is no worker or the capacity is zero |
| Crashes.BadIdEnds | src/infrastructure/actors/storage_actor.cpp:20-26 | For every configuration with a worker and room, and every id the parser rejects, a run in which it ends the process |
| Crashes.MalformedEnds | src/infrastructure/dispatcher/message_dispatcher.cpp:18-56 | A frame in which a member that is looked at has the wrong type ends the process after every run |
| Crashes.CrashNeedsSend | src/infrastructure/actors/storage_actor.cpp:15-28 | With well-typed frames the process ends only with a worker in the storage handler, on the persist request of some dispatched send_message |
| Ledger.DrainedMeansParseable | src/infrastructure/actors/storage_actor.cpp:15-26 | Conversely, a run that worked everything off and lost nothing had parseable ids in every send_message |
| Ledger.EffectHappened | src/infrastructure/actors/chat_actor.cpp:14-45 | In such a run every call the reference predicts for every event was made |
| Order.EffectsInOrder | src/core/actor/actor_system.cpp:52-66 | In every run in which no two workers hold envelopes of one mailbox on the path at once, the events of the completed persist requests (or echoes, or forwards) are a subsequence of the accepted send_message events, even when full mailboxes drop some |
| Order.OneWorkerIsExclusive | src/core/actor/actor_system.cpp:28-37 | A run with at most one worker meets that condition |
| Fifo.RunLine | src/infrastructure/actors/chat_actor.cpp:18-41 | The invariant behind it: completed effects, then storage or session, chat and message (hands before queues) carry strictly increasing event numbers |
| Overtaking.Overtakes | src/core/actor/actor_system.cpp:52-66 | For every configuration with two or more workers, capacity above zero and one parseable id, and for each of persist, echo and recipient frame, a run that completes it for event 1 before event 0 |
| Overtaking.AlwaysInOrderExactly | src/core/actor/actor_system.cpp:52-66 | Where some id parses, persist requests, echoes and recipient frames each complete in order in every run if and only if at most one worker is started or the capacity is zero; where none parses, persist requests do |
| EndToEnd.DeliveredInOrder | src/infrastructure/network/websocket/websocket_session.cpp:51-92 | The message_delivered frames on a session's wire answer, in order and with their own chat and text, a subsequence of the send_message frames read from that session; its incoming_message frames answer likewise, with chat, text and sender, a subsequence of the send_message frames from any session that name it |
| EndToEnd.OneWorkerDeliversInOrder | src/infrastructure/network/websocket/websocket_session.cpp:51-92 | With one worker the same holds, in full, in every run |
| EndToEnd.Projects | src/infrastructure/actors/session_actor.cpp:16-28 | The pipeline half and the network half of every run of the server are runs of their own machines, so every theorem about either holds of the server |
| Deliveries.ReturnPosts | src/infrastructure/actors/session_actor.cpp:16-28 | In every reachable state, when a worker returns from the session handler of an outgoing frame, the frame is appended to the posts of the session registered under its id and nothing else of the network changes; if none is registered, nothing changes |
| Deliveries.AllAccounted | src/infrastructure/actors/session_actor.cpp:16-28 | Over every run, the outgoing frames handled are, in order, those posted to the session registered at that moment and those whose id was then not registered; what was posted to each session is exactly its share, in order |
| Completeness.ReadsAreDispatched | src/infrastructure/network/websocket/websocket_session.cpp:51-61 | The dispatched events are exactly the completed reads whose text is an event, in order, each under the session it was read from |
| Completeness.CallbacksRun | src/infrastructure/network/websocket/websocket_session.cpp:63-92 | Network callbacks move the network half of the server as they move the network alone, and nothing else |
| Completeness.StepsRun | src/core/actor/actor_system.cpp:52-66 | Worker steps move the pipeline half of the server as they move the pipeline alone |
| Completeness.FrameReachesWire | src/infrastructure/actors/chat_actor.cpp:23-41 | In a run that worked everything off and lost nothing, every send_message has had its echo and, if it names a recipient, its recipient frame handled; each was posted to the session then registered under its id or there was none; and unless that session's writes failed its own callbacks bring the frame onto its wire |
| Causality.PersistPrecedesFrames | src/infrastructure/actors/chat_actor.cpp:18-41 | In every reachable state the event of every outgoing frame ever created has an earlier persist request, which is in or past the storage mailbox unless that mailbox refused it |
| Causality.EchoPrecedesForward | src/infrastructure/actors/chat_actor.cpp:23-40 | In every reachable state every recipient frame ever created has the echo of its event created before it |
| Ownership.RunOwned | src/core/actor/mailbox.cpp:8-29 | Every envelope ever created is in exactly one of: a queue, a hand, handled, leaked, freed, drained; nothing else is anywhere; no mailbox exceeds its capacity |
| Ownership.Places | src/core/actor/mailbox.cpp:8-29 | The same law as occurrence counts in each place, adding up to one for a created envelope and to zero for any other |
| Ownership.HandledOnce | src/core/actor/actor_system.cpp:55-60 | No envelope is handled twice |
| Routing.TypedRouting | src/infrastructure/network/server.cpp:34-37 | In every reachable state every destination has a mailbox, and each mailbox and each handler in hand has only payload kinds its actor is meant to receive |
| Routing.RunSound | src/infrastructure/dispatcher/message_dispatcher.cpp:19-57 | Every envelope of every run descends from the dispatched event it is tagged with, by the pipeline's own edges, with copied fields |
| Routing.OnlyFullRefuses | src/core/actor/mailbox.cpp:16-21 | Until a mailbox is destroyed nothing is freed or drained: the only loss is the leak of a push to a full queue |
| Routing.CreatedGoesTo | src/core/actor/mailbox.cpp:16-21 | A newly created envelope is, after every run, in its mailbox exactly if that was open and below its capacity, leaked exactly if it was open and full, freed exactly if it was closed |
| Routing.AcceptedExactly | src/core/actor/actor_system.cpp:18-26 | A dispatched event counts as accepted exactly if its mailbox was open and below its capacity |
| Sweeps.PoppedWithin | src/core/actor/actor_system.cpp:52-66 | An envelope at position p of its mailbox is popped before any single worker has polled that mailbox p + 1 more times, whatever arrives and whatever other workers do |
| Sweeps.NoStarvation | src/core/actor/actor_system.cpp:52-66 | Hence it is popped by the time one worker has finished its current sweep and completed p + 1 further full ones |
| Drain.WorkEnergy | src/core/actor/actor_system.cpp:52-66 | Every pop, send and handler return strictly lowers the number of steps due; every other step of a worker leaves it and the mailboxes alone |
| Drain.RunEnergy | src/infrastructure/actors/chat_actor.cpp:14-45 | After n dispatched events at most 14n such steps are due, in every reachable state |
| Drain.StallMeansQuiescent | src/core/actor/actor_system.cpp:52-66 | A stretch in which every worker takes five turns and the measure does not move ends in quiescence |
| Drain.Quiesces | src/core/actor/actor_system.cpp:52-66 | Once input stops, any schedule with more than 14n such stretches ends quiescent, unless a handler throws |
| Stopping.StopEndsWorker | src/core/actor/actor_system.cpp:39-66 | After `stop`, in any continuation that does not crash, a worker given 21 turns has left its loop, and it has popped at most one envelope for each mailbox that was left in its sweep |
| Stopping.StopEndsAll | src/core/actor/actor_system.cpp:39-50 | After 21 turns each, all workers have left their loops |
| Stopping.ShutsDown | src/core/actor/mailbox.cpp:8-14 | From then on nothing is handled, whatever arrives, and destroying a mailbox moves its whole queue, in order, to the drained envelopes and closes it |
| Stopping.ClosedOnlyAfterJoin | src/core/actor/actor_system.cpp:39-50 | No mailbox is closed before every worker has left its loop |
| Messages.RouteReadsBack | src/infrastructure/dispatcher/message_dispatcher.cpp:19-57 | Each of the four client documents becomes one envelope with the document's own fields and the reading session's id |
| Messages.RouteExactly | src/infrastructure/dispatcher/message_dispatcher.cpp:11-58 | A frame becomes an envelope if and only if it is an object of one of the four types whose members that are looked at are strings (and payload an object) where present, and then the envelope of the client document with exactly those members, missing ones empty; it is dropped if and only if it is no object or its type names none of the four |
| Messages.MissingIsEmpty | src/infrastructure/dispatcher/message_dispatcher.cpp:18-55 | A missing member counts as the empty string: adding it as "" changes nothing |
| Messages.MissingTextIsEmpty | src/infrastructure/dispatcher/message_dispatcher.cpp:30-36 | So does a missing payload, and a payload without a text |
| Messages.MalformedExactly | src/infrastructure/dispatcher/message_dispatcher.cpp:18-55 | Dispatching throws if and only if the type is there and no string, or a member looked at for that type is, or a send_message's payload is no object or has a text that is no string |
| Mailboxes.Mailbox.Push | src/core/actor/mailbox.cpp:16-21 | Exactly one of queue, leaked and destroyed gains the envelope; true is returned exactly if the mailbox was active and below its capacity, and then the queue gained it |
| Mailboxes.Mailbox.Pop | src/core/actor/mailbox.cpp:23-29 | Takes the oldest envelope; none exactly when the queue is empty |
| Mailboxes.Mailbox.Destroy | src/core/actor/mailbox.cpp:8-14 | Closes the mailbox and destroys what is queued, oldest first; leaked envelopes stay leaked |
| Runtime.ActorSystem.Enqueue | src/core/actor/actor_system.cpp:18-26 | Looking up the mailbox and pushing into it changes memory by the machine's push; true is returned exactly when the mailbox accepted |
| Runtime.ActorSystem.Dispatch | src/infrastructure/dispatcher/message_dispatcher.cpp:11-58 | Memory changes by exactly the machine's receive step, the throw on a member of the wrong type included |
| Runtime.ActorSystem.Send | src/core/actor/actor_system.cpp:18-26 | A handler's send is exactly one turn of its worker, accepted or not |
| Runtime.ActorSystem.HandleMessage | src/infrastructure/actors/message_actor.cpp:12-23 | The handler's code makes exactly the sends the machine expects, each one turn |
| Runtime.ActorSystem.HandleChat | src/infrastructure/actors/chat_actor.cpp:14-45 | The same for the fan-out: persist, echo, optional recipient, in this order, results ignored |
| Runtime.ActorSystem.Store | src/infrastructure/actors/storage_actor.cpp:15-32 | The handler gets through exactly if both ids parse and the insert succeeds, or the payload is none of its own |
| Runtime.ActorSystem.Return | src/infrastructure/actors/storage_actor.cpp:15-32 | Returning is the machine's step: a rejected id or a failing insert ends the process, anything else is logged as handled |
| Runtime.ActorSystem.Take | src/core/actor/actor_system.cpp:56-56 | Popping the real mailbox is the machine's pop, or its skip if the mailbox is empty |
| Runtime.ActorSystem.Poll | src/core/actor/actor_system.cpp:55-60 | One iteration of the inner loop is a sequence of turns of this worker; it pops exactly if the mailbox was not empty |
| Runtime.ActorSystem.Sweep | src/core/actor/actor_system.cpp:52-66 | One sweep is a sequence of turns of this worker; one that reports nothing processed found all four mailboxes empty and changed nothing but the worker's place |
| Runtime.ActorSystem.SweepAlone | src/core/actor/actor_system.cpp:52-66 | With one worker, a sweep that processed nothing means the whole system is quiescent, the real mailboxes included |
| Sessions.RunWriteOk | src/infrastructure/network/websocket/websocket_session.cpp:63-92 | In every run and session: payloads run = written ++ queue; posted = run ++ pending tasks; a write is outstanding exactly when the queue is nonempty and no write failed; it is of the front element; the wire is what was written plus that element |
| Sessions.WireGrows | src/infrastructure/network/websocket/websocket_session.cpp:82-92 | The wire is only ever extended, and never again after a write error |
| Sessions.FrontStays | src/infrastructure/network/websocket/websocket_session.cpp:73-80 | Over any run from the start of a write to its own completion, completions of other sessions' writes included, that write stays outstanding and its front element and the wire do not change |
| Writing.Flushes | src/infrastructure/network/websocket/websocket_session.cpp:63-92 | From any reachable state without a write error, running the session's pending tasks and completing its writes puts everything ever posted to it on the wire, in order, with nothing left pending and no other session touched |
| Sessions.IdsCollide | src/infrastructure/network/websocket/websocket_listener.cpp:46-57 | Two sessions have the same id if and only if their accept numbers agree modulo 2^64 |
| Sessions.IdsDistinct | src/infrastructure/network/websocket/websocket_listener.cpp:46-57 | With at most 2^64 accepts all ids are distinct |
| Sessions.AcceptsMakeSessions | src/infrastructure/network/websocket/websocket_listener.cpp:46-57 | There are as many sessions as successful accepts in the run |
| Sessions.RunRegistryOk | src/infrastructure/actors/session_actor.cpp:36-45 | Then the registry is, in every reachable state, exactly the sessions past their handshake with no read or write error, each under its own id |
| Sessions.BoundIsLive | src/infrastructure/actors/session_actor.cpp:19-26 | A bound session has a read outstanding or one of its own handlers running, so the weak pointer locks and a payload for its id is posted to it and to no other |
| Sessions.OthersStayBound | src/infrastructure/network/websocket/websocket_session.cpp:51-55 | No event of one session removes or changes another session's entry |
| Sessions.RunLifeOk | src/infrastructure/network/websocket/websocket_session.cpp:32-61 | Each session is bound at most once and never after an unbind; every post lies after its bind and before its first unbind |
| Closing.ReadErrorCloses | src/infrastructure/network/websocket/websocket_session.cpp:51-55 | After a failing read, whatever follows, the session reads no more, is not registered and gets no post |
| Closing.WriteErrorCloses | src/infrastructure/network/websocket/websocket_session.cpp:82-86 | After a failing write, whatever follows, it is not registered, gets no post and writes no more |
| Closing.ClosedForGood | src/infrastructure/network/websocket/websocket_session.cpp:51-55 | The invariant behind both, over every continuation of every run |
| Transport.WebSocketListener.OnAccept | src/infrastructure/network/websocket/websocket_listener.cpp:46-57 | The id of a new session is the decimal of the number of successful accepts modulo 2^64 |
| Transport.SessionActor.BindTransport | src/infrastructure/actors/session_actor.cpp:36-40 | The registry becomes that of the machine's handshake step; if it was exactly the open sessions under their own ids, it still is, with this session among them |
| Transport.SessionActor.UnbindTransport | src/infrastructure/actors/session_actor.cpp:42-45 | The registry becomes that of the machine's unbinding: this id is gone, all others are kept |
| Transport.SessionActor.Handle | src/infrastructure/actors/session_actor.cpp:16-34 | An outgoing payload is posted exactly if its id is registered, to the session of that id, as in the network machine's delivery step |
| Transport.WebSocketSession.OnAccept | src/infrastructure/network/websocket/websocket_session.cpp:32-40 | The handshake's callback is the machine's handshake and re-arming steps: registered under its id and reading, or ended with the registry unchanged |
| Transport.WebSocketSession.OnRead | src/infrastructure/network/websocket/websocket_session.cpp:51-61 | The read's callback is the machine's read and re-arming steps; exactly the text received since the last read goes to the dispatcher and reading goes on; an error ends reading and takes exactly this id out of the registry |
| Transport.WebSocketSession.Send | src/infrastructure/network/websocket/websocket_session.cpp:63-71 | Posting is the machine's post and keeps the write-queue protocol |
| Transport.WebSocketSession.RunPosted | src/infrastructure/network/websocket/websocket_session.cpp:64-70 | The posted task is the machine's task step: the oldest task's payload goes to the end of the write queue, and to the wire at once exactly if the queue was empty; protocol kept |
| Transport.WebSocketSession.DoWrite | src/infrastructure/network/websocket/websocket_session.cpp:73-80 | Hands over the front element; callable only when no write is outstanding and none has failed, which its callers establish |
| Transport.WebSocketSession.OnWrite | src/infrastructure/network/websocket/websocket_session.cpp:82-92 | Completion is the machine's step: an error takes this id out of the registry, leaves the queue as it is and writes no more; otherwise the front is written and dropped and the next element goes to the wire; protocol kept |
| Tokens.RefreshChain | src/infrastructure/network/http/http_router.cpp:28-39 | After any number of refreshes under any space-free schemes and clocks the token is accepted, valid and names the subject of the first one; that is the original user id if and only if the id is well-formed UTF-8 |
| Tokens.RefreshKeepsUser | src/infrastructure/network/http/http_router.cpp:28-39 | Any refresh answers with a token exactly if the presented text is valid with a readable subject, with 401 exactly if it is not valid, and keeps the subject, whatever JSON or other text the payload is |
| Tokens.IssueRoundTrip | src/core/security/jwt_service.cpp:27-62 | For every user id and clock the issued token validates and yields the id with ill-formed UTF-8 replaced: the id itself if and only if it is well-formed |
| Tokens.ValidExactly | src/core/security/jwt_service.cpp:38-47 | A token validates if and only if it is d + "." + sign(d) for some d |
| Tokens.HeaderIsDump | src/core/security/jwt_service.cpp:31-34 | The header text is what the JSON writer makes of its two members |
| Tokens.SignatureShape | src/core/security/jwt_service.cpp:13-17 | Every signature is 5 to 40 hex digits and nothing else |
| Tokens.ComputeSignature | src/core/security/jwt_service.cpp:64-78 | The loop over the digest computes the signature the other lemmas are about |
| Tokens.SignsDataThenSecret | src/core/security/jwt_service.cpp:64-67 | The hasher sees the data followed by the secret: moving bytes from the end of one to the front of the other changes nothing |
| Tokens.SignDependsOnBoth | src/core/security/jwt_service.cpp:64-67 | Different data, or different secrets, have different signatures under some hasher |
| Tokens.SignatureSpellsDigest | src/core/security/jwt_service.cpp:69-77 | The signature is the five words in order, each in hex without leading zeros, and each reads back as its word |
| Tokens.SignatureIsDigest | src/core/security/jwt_service.cpp:69-77 | If no word has a leading zero it is forty digits whose blocks of eight read back as the words |
| Tokens.IssuedClaims | src/core/security/jwt_service.cpp:27-36 | The payload of an issued token parses to exactly three members: iat the clock, exp the clock plus the lifetime in unsigned 64-bit arithmetic, sub the user |
| Tokens.ExtractsBetweenDots | src/core/security/jwt_service.cpp:49-62 | From a text with two dots, what lies between the first and the last one is read |
| Tokens.ExtractsNothing | src/core/security/jwt_service.cpp:49-54 | From a text with fewer than two dots the empty id is extracted |
| Tokens.SubIsLast | src/core/security/jwt_service.cpp:57-61 | Of several members called "sub" the last one counts, and it must be a string |
| Json.StringRoundTrip | src/core/security/jwt_service.cpp:19-21 | Escaping and then scanning a string is the identity on all well-formed UTF-8, whatever text follows the closing quote |
| Json.ObjectRoundTrip | src/core/security/jwt_service.cpp:19-21 | Writing and then parsing a flat object is the identity |
| Json.ScannedIsValid | src/core/security/jwt_service.cpp:56-61 | Every string the parser produces is well-formed UTF-8, surrogate escapes included |
| Json.SanitizeExactly | src/core/security/jwt_service.cpp:19-21 | The writer's replacement of ill-formed sequences changes a string if and only if it is not well-formed; its result is well-formed and a fixed point |
| Json.BrokenIsMaximal | src/core/security/jwt_service.cpp:19-21 | Each ill-formed part becomes one U+FFFD, and it is maximal: longer than a byte only if it begins a well-formed sequence, and no longer beginning would |
| Json.ValidExactlyEncoded | src/core/security/jwt_service.cpp:19-21 | Well-formed is exactly the encoding of a sequence of Unicode scalar values |
| Json.EscapesAsListed | src/core/security/jwt_service.cpp:19-21 | The escapes of section 7 of RFC 8259, character by character |
| Json.ParsedIsBraced | src/core/security/jwt_service.cpp:56-60 | What parses begins and ends with its braces: nothing is left over |
| Routes.ChatIdExactly | src/infrastructure/network/http/http_router.cpp:44-46 | Every target passing both guards is "/chat/" + id + "/messages" with exactly id extracted, or "/chat/messages", where the length wraps and "messages" is extracted |
| Routes.ChatIdRoundTrip | src/infrastructure/network/http/http_router.cpp:44-46 | Every target built from an id passes the guards and gives the id back |
| Pool.Balanced | src/infrastructure/database/postgres_pool.cpp:22-25 | After k acquires any two counts differ by at most 1 + k div 2^64, and by at most 1 while k <= 2^64 or if the pool size divides 2^64 |
| Pool.BalancedForeverExactly | src/infrastructure/database/postgres_pool.cpp:22-25 | The counts stay within one of each other for all k if and only if the pool size divides 2^64 |
| Pool.Drifts | src/infrastructure/database/postgres_pool.cpp:22-25 | Otherwise the first connection is two ahead of the last after two turns of the counter |
| Pool.CountIs | src/infrastructure/database/postgres_pool.cpp:22-25 | The count of each connection in closed form, for any counter width |
| Pool.HandOutsBalanced | src/infrastructure/database/postgres_pool.cpp:22-25 | The same balance for the log of connections that acquire returned |
| Pool.Open | src/infrastructure/database/postgres_pool.cpp:7-20 | The constructor's loop fails exactly for size zero or a connection that does not open, at the first such one; otherwise all connections are there in order |
| Pool.PostgresPool.Acquire | src/infrastructure/database/postgres_pool.cpp:22-25 | Returns the next connection of the round robin over the wrapping counter and logs it, keeping the invariant HandOutsBalanced is about |

## Left out

- Decoding of WebSocket frames: dispatch takes the decoded document.
- Json.ObjectRoundTrip: covers compact flat objects of strings and unsigned 64-bit integers, the form the token service writes; what the JSON library makes of any other payload is a parameter of the token service, of which only well-formed UTF-8 is demanded.
- Tokens.SignatureShape: the digest is an arbitrary function to five 32-bit words; nothing is claimed about its strength.
- Order.EffectsInOrder: the condition on a single run is sufficient, not necessary; the exact condition is proved for configurations, in Overtaking.AlwaysInOrderExactly, and not for echoes and recipient frames where no id parses and every persist request ends the process.
- EndToEnd.DeliveredInOrder: sufficient condition only, as above.
- Drain.Quiesces: progress is stated for schedules built from fair stretches of worker turns; that the operating system schedules every worker is an assumption.
- Runtime.ActorSystem.Sweep: the class runs one worker with nothing interleaved; interleavings are covered by the step machine. The sleep after an idle sweep has no effect on the state, and the outer loop, `start` and `stop` exist only as steps of the machine.
- Transport.WebSocketSession.OnAccept: a callback of the class runs to its end with nothing interleaved; deliveries between the bind and the first read are covered by the Sessions machine.
- Transport.SessionActor.BindTransport: transports are numbers; weak pointers appear as the liveness of a session in the Sessions machine.
- Lock-free queue internals: a mailbox is a linearizable FIFO that refuses only when full.
- Sockets, strands and the I/O context: only the order of callbacks and the serialisation a strand gives.
- The store itself: the order and number of persist requests and inserts that throw are modelled; SQL, random message ids, timestamps and a repository that reports failure by its result (which is only logged) are not.
- Other exceptions on network threads (HTTP routes), and the order in which the server starts and stops its parts.
- The other HTTP routes, listing rows in the history route, controllers, use cases, configuration, logging, thread pool and signal handling: forwarding and library calls that would only add easy members.
- src/infrastructure/websocket: not part of the server's build; its write queue is the one modelled here.
