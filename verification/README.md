# t2_bus, modelled and proved in Dafny

t2_bus is a message bus: clients publish, subscribe, serve topics and send requests through one server. This project
models its core and proves what it keeps, for every input, every order of events and every reachable state.

| file | what it models |
|---|---|
| `Common.dfy`, `Protocol.dfy` | options, results and listings; the messages that travel between client and server |
| `Regex.dfy`, `Topic.dfy` | the topic grammar as regular expressions, splitting and joining, parsing and printing |
| `Matching.dfy` | what it means for two patterns with `*` and `**` to match: some wildcard-free segment sequence belongs to both |
| `Trie.dfy`, `Flat.dfy` | the directory's trie as a value; its meaning as a set of subscriptions and a map of owners; the refinement between the two |
| `Directory.dfy` | the directory as the source has it: a class of nodes that its methods update in place, each proved against the trie |
| `ServerSpec.dfy` | one step of the server core as a function from state to state, with a history of what was processed, sent, accepted and settled |
| `ServerInvariants.dfy`, `ServerEffects.dfy`, `System.dfy` | why every step keeps the invariant: first of the core alone, then with the FIFO queue, the armed timers and the departing clients |
| `ServerTheorems.dfy`, `ServerPromises.dfy`, `LateTimeout.dfy` | what follows for whole runs of the server |
| `ServerCore.dfy`, `ClientStub.dfy` | the server core and the per-client stub as classes, proved against the functions and events above |
| `ClientSpec.dfy`, `ClientRuns.dfy`, `ClientCalls.dfy`, `ClientCore.dfy` | the client core: step functions, whole lives, what its callbacks are told, and the class with its event loop |
| `Origins.dfy`, `Bookkeeping.dfy`, `Answers.dfy` | over whole runs of the server: where every message in a channel comes from, what the directory and the pending requests mean in terms of the processed messages, what is answered to whom and what the Acks report |
| `Composition.dfy`, `EndToEnd.dfy`, `Lives.dfy` | server and any number of client cores together, over FIFO channels; from the user of one to the users of others; the life of each of them |
| `Codec.dfy` | length-prefixed frames over a growing buffer |

## How to read it

**Directory.** `Overlap(p, q)` is the declarative relation. `Tries.Search` has the branches and the `inside` flag of
`_get_subscribers`; `SearchExact` proves that it computes `Overlap` for every stored pattern, although it treats the
subscribed and the published side by different rules. Termination is the measure (trie, remaining topic, flag), which
`Directory.CollectSubscribers` carries too. `Directory` is a tree of heap objects; `Content()` is its flat meaning.

**Server.** A `Core` is the state of the server core plus history fields, which no decision reads: `sent` (everything
ever put into each client's channel), `processed`, `accepted` (one record per forwarded request), `outcome` (how it
ended: responded, undeliverable or cancelled; a timeout is a response whose author is 0) and `source` (which request
a response belongs to). A `System` adds the FIFO queue, the set of clients whose stub has announced its departure, and
whether the loop still runs. Everything the code cannot decide is in the event: the order in which a set is visited
and which sends fail. A send can fail only once the stub has enqueued its Deregister, because the stub enqueues
it before it drops its receiver (`src/server/client_stub.rs:42-46`). `ServerCore.Run` is the loop as code, and its
contract is that loop and world together make a run of the system.

**Clients.** Tables of callbacks are sets of keys; which users have dropped their end and which messages the
connection refuses are inputs of every step, and `calls` is the history of what callbacks were sent. `Composition`
lets clients that behave arbitrarily take part as well.

## One property that does not hold

The timer of a request is never disarmed (`src/server/core.rs:230-235`). When the request was answered in time, the
timeout that follows finds no entry, `respond` returns `InvalidRequestId` (266-267) and `?` on line 106 carries it out
of `run`: the server stops. `AnsweredRequestCrashes` gives the events, for every topic, question and answer;
`StopsExactly` says when in general a timeout ends the loop, and `AnsweredRequestStillTimesOut` that every answered,
undeliverable or cancelled request has such a timeout ahead of it. The runs below are therefore runs up to that stop.

Likewise, the encoder does not check the size that the decoder enforces; `FrameSurvivesExactly` states the exact
condition.

## Model

| member | source | states |
|---|---|---|
| `Topics.SegmentRegex` | `src/topic.rs:22-26` | the protocol expression accepts exactly a word or `*`, a path segment exactly a word, `*` or `**` |
| `Topics.WordAlphabet` | `src/topic.rs:22-26` | a word is a non-empty string of lower-case letters, digits and underscores |
| `Topics.NoSlash` | `src/topic.rs:75-83` | a string without a slash is a path exactly if it is empty or a segment |
| `Topics.Slash` | `src/topic.rs:75-83` | what has a slash is a path exactly if a segment stands before the first one and a non-empty path after it |
| `Topics.PathRegex` | `src/topic.rs:75-83` | the path expression accepts a string exactly when every piece between slashes is a segment; soundness and completeness of the loop over `(segment/)*` |
| `Topics.JoinSplit` | `src/topic.rs:56-72` | joining the pieces of a split string gives the string back |
| `Topics.SplitJoin` | `src/topic.rs:56-72` | splitting joined segments gives the segments back |
| `Topics.JoinSegments` | `src/topic.rs:62-72` | the source's loop with `push` and `push_str` computes the join |
| `Topics.FromValidSegments` | `src/topic.rs:179-186` | nothing from no segments; otherwise the topic that has exactly these segments |
| `Topics.SegmentsRoundTrip` | `src/topic.rs:174-186` | a valid topic's segments form a topic pattern, and rebuilding from them returns the topic |
| `Topics.SegmentsInjective` | `src/topic.rs:174-178` | different topics have different segments, so a trie path identifies its topic |
| `Topics.SplitOnce` | `src/topic.rs:193-195` | cuts at the first separator, and fails only when there is none |
| `Topics.Colon` | `src/topic.rs:192-197` | what has a colon parses exactly if a protocol stands before the first one and a path after it, and then to these two |
| `Topics.ParsePrint` | `src/topic.rs:189-212` | parsing a printed valid topic returns it |
| `Topics.PrintParse` | `src/topic.rs:189-212` | printing a parsed string returns the string; the strings that parse are exactly the printed topics |
| `Topics.TopicsOverlap` | `src/topic.rs:28-31` | two topics match exactly when some valid wildcard-free topic is named by both, so restricting witnesses to valid words changes nothing |
| `Matching.OverlapSymmetric` | `src/directory.rs:192-252` | matching does not depend on which side is subscribed and which is published |
| `Matching.ConcreteAcceptsItself` | `src/topic.rs:28-31` | a pattern without wildcards stands for itself alone |
| `Matching.OverlapConcrete` | `src/topic.rs:28-31` | against a wildcard-free topic, matching is membership in the other pattern's language |
| `Matching.OverlapDoubleWildcard` | `src/directory.rs:203-226` | a leading `**` either stops or absorbs one whole segment of the other side, even if that is `*` or `**`; both directions, with constructed witnesses |
| `Matching.OverlapHeads` | `src/directory.rs:229-247` | heads other than `**` must be able to name one common word, and then the tails must match; both directions |
| `FlatDirectories.SearchSound` | `src/directory.rs:197-252` | every client the search returns has a subscription, which the lemma names, that matches |
| `FlatDirectories.SearchComplete` | `src/directory.rs:197-252` | every client with a matching subscription is returned, also from inside a subscribed `**` |
| `FlatDirectories.SearchExact` | `src/directory.rs:151-252` | the search returns exactly the clients with a matching subscription, on every trie and for every published pattern |
| `FlatDirectories.SearchSymmetric` | `src/directory.rs:203-251` | exchanging subscribed and published pattern never changes what the search answers |
| `FlatDirectories.DirectoryRefinesFlat` | `src/directory.rs:14-252` | after any sequence of operations the trie stands for the flat directory that the same operations give; no wildcard is owned, the root has no subscriber, and a search answers from the flat relation |
| `FlatDirectories.OperationRefines` | `src/directory.rs:24-190` | every operation on the trie is the one flat update it should be |
| `FlatDirectories.WellFormedKept` | `src/directory.rs:52-190` | every operation keeps: subscribed and owned patterns belong to topics, owned ones have no wildcard |
| `FlatDirectories.ViewSubscribe` | `src/directory.rs:121-133` | subscribing adds one (client, pattern) pair and changes no owner |
| `FlatDirectories.ViewUnsubscribe` | `src/directory.rs:137-148` | unsubscribing removes one pair and changes no owner |
| `FlatDirectories.ViewClaim` | `src/directory.rs:52-76` | first come, first served; a refused claim changes nothing in the flat view although it may create nodes; the exact error of each refusal |
| `FlatDirectories.ViewUnclaim` | `src/directory.rs:79-100` | only the owner's own claim is removed; a wildcard is reported exactly when the walk meets it, a missing child ends the walk first |
| `FlatDirectories.ViewGetOwner` | `src/directory.rs:103-117` | the owner of the flat view, for wildcard topics as well |
| `FlatDirectories.ViewDrop` | `src/directory.rs:166-190` | exactly this client's subscriptions and claims disappear, all others stay |
| `FlatDirectories.EmptiedExact` | `src/directory.rs:159-190` | the paths collected while dropping a client are exactly the patterns that it alone subscribed to |
| `Directories.Directory.constructor` | `src/directory.rs:14-20` | a new directory is valid and empty |
| `Directories.Directory.Claim` | `src/directory.rs:24-26` | the object's content and the result are those of the flat claim |
| `Directories.Directory.Unclaim` | `src/directory.rs:30-32` | the content is that of the flat unclaim; the error comes exactly when the walk meets a wildcard, so never for a topic without one |
| `Directories.Directory.GetOwner` | `src/directory.rs:34-36` | the owner in the object's content |
| `Directories.Directory.Subscribe` | `src/directory.rs:40-42` | the content gains exactly this subscription |
| `Directories.Directory.Unsubscribe` | `src/directory.rs:46-48` | the content loses exactly this subscription |
| `Directories.Directory.GetSubscribers` | `src/directory.rs:151-155` | lists exactly the clients with a matching subscription, each once, in an order nobody controls |
| `Directories.Directory.DropClient` | `src/directory.rs:159-164` | the content loses this client, and the result lists, each once, exactly the topics that had no other subscriber, as they were subscribed |
| `Directories.Directory.EnsureChild` | `src/directory.rs:254-258` | adds an empty child where there is none, and leaves every other node alone |
| `Directories.Directory.ClaimSegments` | `src/directory.rs:52-76` | the recursive update in place refines the claim on the trie value |
| `Directories.Directory.UnclaimSegments` | `src/directory.rs:79-100` | the recursive update in place refines the unclaim on the trie value |
| `Directories.Directory.GetOwnerSegments` | `src/directory.rs:103-117` | the walk over nodes reads the trie's owner |
| `Directories.Directory.SubscribeSegments` | `src/directory.rs:121-133` | the recursive update in place refines the subscription on the trie value |
| `Directories.Directory.UnsubscribeSegments` | `src/directory.rs:137-148` | the recursive update in place refines the unsubscription on the trie value |
| `Directories.Directory.CollectSubscribers` | `src/directory.rs:197-252` | fills the shared set with exactly the search result, on every path through the flag and the wildcards, and terminates |
| `Directories.Directory.CollectThrough` | `src/directory.rs:221-226` | the loop over all children for a published `**`, in any order |
| `Directories.Directory.CollectPast` | `src/directory.rs:229-238` | the loop over all children for a published `*`, in any order, with the flag set below a subscribed `**` |
| `Directories.Directory.DropClientBelow` | `src/directory.rs:166-190` | removes the client from the whole subtree in place, and reports exactly the paths it leaves empty |
| `Directories.Directory.DropFromNode` | `src/directory.rs:172-183` | releases this node's claim and subscription; reports the path when the set becomes empty, and never the root |
| `Directories.Directory.DropFromChildren` | `src/directory.rs:185-189` | the loop over children, in any order: what is done so far and what remains together are the whole report |
| `ServerSpec.KillTopic` | `src/server/core.rs:45` | the literal parses to the topic that id 0 subscribes to |
| `ServerCores.ServerCore.constructor` | `src/server/core.rs:32-48` | the initial state, with only id 0 subscribed to the kill topic |
| `ServerCores.ServerCore.Turn` | `src/server/core.rs:72-85` | one turn: every event that can happen at this moment, and no other, moves core, queue, departures and status as the system's event does; a processed publication visits exactly the matching clients |
| `ServerCores.ServerCore.Run` | `src/server/core.rs:68-86` | the loop amid its world: after any run, whatever arrives or fires around it and whenever the loop gets its turn, both together extend that run, every possible event happens in order, and the object is in the state of the whole run; so every theorem about runs holds of it |
| `ServerCores.ServerCore.ProcessTask` | `src/server/core.rs:88-113` | refines the step function; the visit lists exactly the matching clients, an Unsrv fails exactly when its walk meets a wildcard, and a failed timeout is the one error that leaves the loop |
| `ServerCores.ServerCore.RegisterClient` | `src/server/core.rs:115-139` | a new id, a new empty channel, registered |
| `ServerCores.ServerCore.DeregisterClient` | `src/server/core.rs:141-147` | removes the sender, the directory entries and the pending requests in which the client is a party; every other pending request stays as it is |
| `ServerCores.ServerCore.ProcessMsg` | `src/server/core.rs:149-196` | dispatch, then the Ack with the error or the number of recipients; failing to deliver it is ignored; the visit lists exactly the matching clients |
| `ServerCores.ServerCore.Handle` | `src/server/core.rs:161-173` | every message but Pub, as the step function says; the error of an Unsrv is determined by the nodes of the directory |
| `ServerCores.ServerCore.Serve` | `src/server/core.rs:198-202` | the claim and its error |
| `ServerCores.ServerCore.Unserve` | `src/server/core.rs:204-208` | the unclaim; its error comes exactly when the walk meets a wildcard |
| `ServerCores.ServerCore.Request` | `src/server/core.rs:210-241` | forwards to the owner, records the pending entry under the forwarded id, arms its timer; the three ways to fail |
| `ServerCores.ServerCore.Track` | `src/server/core.rs:222-235` | one pending entry and one armed timer are added |
| `ServerCores.ServerCore.Respond` | `src/server/core.rs:243-271` | only the responder or the server may answer; the entry is removed before the send and stays removed if that fails |
| `ServerCores.ServerCore.PublishTo` | `src/server/core.rs:285-302` | the loop over the recipients, stopping at id 0 or at the first failure |
| `ServerCores.ServerCore.Deliver` | `src/server/core.rs:304-333` | takes an id in any case; a failed send removes the client at once |
| `ServerCores.ServerCore.NewMsg` | `src/server/core.rs:335-340` | numbers messages consecutively |
| `ServerInvariants.InitInv` | `src/server/core.rs:32-48` | the initial state satisfies the invariant |
| `ServerInvariants.RegisterKeeps` | `src/server/core.rs:115-139` | registering keeps the invariant |
| `ServerInvariants.DeregisterKeeps` | `src/server/core.rs:141-147` | deregistering keeps it, also for an id that is already gone |
| `ServerInvariants.DeliverKeeps` | `src/server/core.rs:304-333` | delivering anything but a response keeps it, failed sends and eager clean-up included |
| `ServerInvariants.RequestKeeps` | `src/server/core.rs:210-241` | a request together with its Ack keeps it |
| `ServerInvariants.RespondKeeps` | `src/server/core.rs:243-271` | a response keeps it, also when its receiver is cleaned up |
| `ServerInvariants.PublishKeeps` | `src/server/core.rs:285-302` | the fan-out keeps it although a failed delivery changes the directory in the middle of the loop |
| `ServerInvariants.MessageKeeps` | `src/server/core.rs:149-196` | every message keeps it |
| `ServerInvariants.TaskKeeps` | `src/server/core.rs:88-113` | every queued item keeps it, and history only grows |
| `ServerEffects.MessageEffects` | `src/server/core.rs:149-196` | a message adds no timer but that of the request it has accepted, brings back no client that is gone, and removes only clients that are leaving |
| `ServerEffects.RespondEffects` | `src/server/core.rs:243-271` | the same for a response, whoever sends it |
| `Systems.TaskHasEffects` | `src/server/core.rs:88-113` | the same for every queued item |
| `Systems.TaskGone` | `src/server/core.rs:88-147` | a client that is gone stays gone, unless the item registers it or is one of its own messages |
| `Systems.EventKeeps` | `src/server/core.rs:68-113` | every event of stubs, timers and the loop keeps the system invariant over core, queue, timers and departures |
| `Systems.Reachable` | `src/server/core.rs:32-113` | the invariant holds after every run |
| `ClientStubs.ClientStub.Relay` | `src/server/client_stub.rs:48-78` | the j-th message of the core is the j-th thing written to the connection, and the j-th message of the client the j-th task for the core, until the first wake that ends the loop; the result of each of the six such wakes |
| `ClientStubs.ForwardedByPlace` | `src/server/client_stub.rs:63-68` | every message from the core is forwarded, once and in order |
| `ClientStubs.TasksByPlace` | `src/server/client_stub.rs:55-61` | every message from the client becomes a task, once and in order |
| `ClientStubs.PlacesExist` | `src/server/client_stub.rs:53-78` | the places of either side's messages among the wakes always exist, so the statements by place are never empty |
| `ClientStubs.ConnectionCarries` | `src/server/client_stub.rs:63-68` | in every run, if the core hands over the first k messages of the client's channel, a new connection carries exactly these |
| `ClientStubs.ClientStub.Serve` | `src/server/client_stub.rs:42-46` | however the loop ends, exactly one Deregister is enqueued, after every message, unless the core is gone, which is then the error |
| `ClientStubs.EveryClientHasStub` | `src/server/client_stub.rs:42-78` | in every run, whatever is interleaved, each client's tasks are what `Serve` enqueues for some wakes, in order, with the Deregister last |
| `ClientStubs.StubTakesPart` | `src/server/client_stub.rs:42-78` | conversely, in every run, whatever is interleaved, a stub that has not left may go on: its next message and its departure are events of the system and enqueue what the stub enqueues |
| `ServerTheorems.RunExtends` | `src/server/core.rs:68-113` | what was processed, sent, accepted or settled stays so for the rest of the run |
| `ServerTheorems.TracesMeanDeregisterQueued` | `src/server/core.rs:141-147` | an id that is not registered appears nowhere in directory and pending entries, unless its Deregister is still queued |
| `ServerTheorems.DeregisteredForGood` | `src/server/core.rs:141-147` | once its Deregister was processed, a client never appears again in senders, subscriptions, owners or pending entries |
| `ServerTheorems.RequestAccounting` | `src/server/core.rs:210-271` | an accepted request is pending or has one final outcome, never both; while pending, its timer is armed or its timeout is queued |
| `ServerTheorems.NoOverwriting` | `src/server/core.rs:222-228` | a new pending entry never replaces a live one; no message is accepted twice |
| `ServerTheorems.ResponseRouted` | `src/server/core.rs:243-271` | every response in a channel answers an earlier Req of that very client, with the author's status and payload; the author is the one client it was forwarded to, or the server with an empty timeout |
| `Origins.PutSomewhere` | `src/server/core.rs:304-333` | in every run, each message in a channel was put there by one event that processed a queued item |
| `Origins.CauseOf` | `src/server/core.rs:149-333` | that item is the cause of the message, by kind: the acknowledged message, the publication, the owner's request, or a response or timeout; an Ack is the last message it adds |
| `Origins.RequestRouted` | `src/server/core.rs:210-228` | in every run, each Req in a channel is an accepted request with this client as responder, asked for by the recorded message, on a topic that the client owned just then |
| `Origins.PublicationOrigin` | `src/server/core.rs:285-302` | in every run, each Pub in a channel was published with that topic and payload at a moment when the client held a matching subscription |
| `Origins.AckAnswersMessage` | `src/server/core.rs:159-193` | in every run, each Ack in a channel answers the processed message of that client with that number; for a publication without error it reports how many clients held a matching subscription at that moment, otherwise no number |
| `Origins.OneAckPerMessage` | `src/server/core.rs:177-193` | in every run, Acks at two different places answer different processed messages |
| `Origins.AcknowledgedMeansSent` | `src/server/core.rs:177-193` | in every run, when a publication is acknowledged without error, each of these clients was sent one copy and nobody else anything |
| `Bookkeeping.TaskBooks` | `src/server/core.rs:88-147` | what one queued item does to subscriptions, owners and pending requests: the one change that it asks for, and only removed clients lose more |
| `Bookkeeping.HoldsWhatItAsked` | `src/server/core.rs:273-283` | in every run, a registered client holds a pattern exactly when the last of its processed Sub and Unsub messages on it was a Sub |
| `Bookkeeping.OwnerAfter` | `src/server/core.rs:198-208` | in every run, a claim takes a free topic, its owner's Unsrv frees it, its owner's removal frees it, and nothing else changes its owner |
| `Bookkeeping.FreedForNext` | `src/server/core.rs:198-208` | in every run, after its owner's Unsrv a topic has no owner, and the next client to claim it owns it |
| `Bookkeeping.PendingStays` | `src/server/core.rs:141-147` | in every run, a pending request stays as it is through every item but its own response or timeout, as long as neither party is removed |
| `Bookkeeping.RegisteredNotRemoved` | `src/server/core.rs:141-147` | in every run, a client that is registered after an item was not removed by it, so requests between two such clients stay pending |
| `Bookkeeping.CancelledMeansGone` | `src/server/core.rs:141-147` | in every run, a request was cancelled only if its requester or its responder is no longer registered |
| `Answers.RequestTaken` | `src/server/core.rs:210-241` | in every run, a request is taken exactly when its topic has an owner that can be reached; then the owner is sent just its topic and payload, and the record names who asked under which number |
| `Answers.ResponseTaken` | `src/server/core.rs:243-271` | in every run, the responder's answer to a pending request settles it: the asker is sent just its status and payload under the number it asked with, or cannot be reached |
| `Answers.TimeoutTaken` | `src/server/core.rs:99-109` | the same for the timeout of a pending request, with an empty payload |
| `Answers.AckOfRequest` | `src/server/core.rs:177-191` | in every run, a request is acknowledged without error exactly when it was accepted in that event; otherwise the error is ServiceNotFound without an owner, DeliveryFailed or UnknownClient with one |
| `Answers.AckOfResponse` | `src/server/core.rs:177-191` | in every run, a response is acknowledged without error exactly when it settled a request pending with its author as responder and reached the asker; InvalidRequestId exactly when there is no such request |
| `Answers.AckOfClaim` | `src/server/core.rs:177-202` | in every run, a claim is acknowledged without error exactly for a topic without wildcard and without other owner; which error otherwise |
| `Answers.AckOfTheRest` | `src/server/core.rs:157-191` | in every run, no other message but a publication is refused, save giving up a topic with a wildcard |
| `Answers.AckOfPublication` | `src/server/core.rs:285-302` | in every run, a publication is acknowledged without error exactly when all in the order of the visit could be reached; otherwise the error names the first who could not |
| `ServerTheorems.OneResponsePerRequest` | `src/server/core.rs:243-257` | in every run, responses at two different places, in one channel or in two, answer two different accepted requests, asked for by two different messages |
| `ServerTheorems.AcceptedFromOwner` | `src/server/core.rs:210-228` | a request is accepted only with the topic's owner of that moment as responder |
| `ServerTheorems.OwnerAtAcceptance` | `src/server/core.rs:210-228` | for each accepted request of a run, the event that took it, and that its responder owned the topic just then |
| `ServerTheorems.IdsNeverReused` | `src/server/core.rs:335-340` | in every run, messages at two different places, in one client's channel or in two, have different ids |
| `ServerTheorems.ChannelAscends` | `src/server/core.rs:304-340` | ids strictly increase along each client's channel |
| `ServerTheorems.AckComesFirst` | `src/server/core.rs:149-196` | a response follows the Ack of its own request in the requester's channel |
| `ServerPromises.FanOut` | `src/server/core.rs:285-302` | the first k recipients, all of them reachable, get one copy each, nobody else anything; k is their number exactly when the loop succeeds; otherwise number k is id 0 or cannot be reached, and the error says which and how |
| `ServerPromises.PublishReport` | `src/server/core.rs:159-193` | Ack with n: every matching client and no other got one copy, and n is their number; Ack with an error: the copies went to distinct matching clients |
| `ServerPromises.NoKill` | `src/server/core.rs:293-296` | id 0 is among the recipients exactly when the topic matches the kill topic |
| `ServerPromises.ExclusiveService` | `src/server/core.rs:198-208` | from owning a topic on, a client stays its owner until its own Unsrv or its removal |
| `ServerPromises.ServiceIsExclusive` | `src/server/core.rs:198-241` | after any event that processed a client's successful Srv, and as long as nothing makes it lose the topic: another client's Srv is refused with TopicAlreadyClaimed and changes nothing, a Req goes to it or to nobody |
| `ServerPromises.SrvMakesOwner` | `src/server/core.rs:149-202` | a client whose Srv succeeds is the owner in the next state, Ack included |
| `ServerPromises.SrvOutcome` | `src/server/core.rs:198-202` | a Srv succeeds exactly on a topic without wildcards that nobody else owns, and changes no other topic |
| `ServerPromises.SrvWhileOwned` | `src/directory.rs:52-64` | another client's Srv on an owned topic is refused with TopicAlreadyClaimed and changes nothing |
| `ServerPromises.ReqWhileOwned` | `src/server/core.rs:210-220` | a Req on an owned topic puts one copy into the owner's channel or none anywhere |
| `ServerPromises.PublishKilled` | `src/server/core.rs:293-299` | the fan-out panics exactly when id 0 is listed and every client before it can be reached |
| `ServerPromises.StopsExactly` | `src/server/core.rs:68-113` | the loop fails exactly for a timeout that cannot be answered, ends normally exactly for a Stop message, and panics exactly for a publication that matches the kill topic while every client listed before id 0 can be reached |
| `ServerPromises.LateTimeoutIsSilent` | `src/server/core.rs:99-106` | a timeout without pending entry sends nothing and changes nothing, and fails with InvalidRequestId |
| `ServerPromises.AnsweredRequestStillTimesOut` | `src/server/core.rs:230-235` | every request that ended otherwise than by its timeout still has that timeout ahead while the server runs |
| `LateTimeouts.AnsweredRequestCrashes` | `src/server/core.rs:99-106` | serve, ask, answer, timer: for every topic, question and answer a run in which the server stops with an error although everything was delivered |
| `LateTimeouts.CrashExplained` | `src/server/core.rs:99-109` | a run has ended with an error if and only if one of its events processed a timeout that could not be answered |
| `ClientSpec.BeforeSendAgrees` | `src/client/core.rs:153-226` | sending keeps callback tables and local directory in agreement; exactly when it fails or panics |
| `ClientSpec.SendAgrees` | `src/client/core.rs:142-151` | so it does when the connection refuses the message, which is the only further way to fail |
| `ClientSpec.UnsubscribeAgrees` | `src/client/core.rs:262-271` | one number per Unsub; it ends early exactly when the connection refuses one of them |
| `ClientSpec.SubscribeAgrees` | `src/client/core.rs:165-173` | a subscription's new id has one callback and one topic |
| `ClientSpec.DropAgrees` | `src/client/core.rs:254-259` | removing a callback together with its directory entries keeps the agreement |
| `ClientSpec.CallAllAgrees` | `src/client/core.rs:246-273` | the delivery loop finds every callback although it drops some on the way; each living one is called once, in order; it ends early exactly when an Unsub is refused, and then no callback was called twice or out of order |
| `ClientSpec.PublicationReaches` | `src/client/core.rs:244-273` | a publication calls every matching local callback whose user is there once, and forgets exactly the matching ones whose user is gone, unless an Unsub is refused |
| `ClientSpec.AfterReceiveAgrees` | `src/client/core.rs:228-290` | receiving keeps the agreement; the only unwrap that can fail is the one for a response nobody waits for; exactly when it fails with an error |
| `ClientRuns.ServedOnce` | `src/client/core.rs:193-210` | over a client's life, the local owner of a topic is present exactly when there was one more Srv than Unsrv |
| `ClientRuns.OwnerAfterSend` | `src/client/core.rs:193-210` | a successful Srv makes an owner where there was none, a successful Unsrv removes it, anything else changes none |
| `ClientRuns.UnsrvFailsExactly` | `src/client/core.rs:193-196` | the unwrap for an Unsrv fails exactly when the topic was given up as often as it was taken |
| `ClientRuns.TurnOutcome` | `src/client/core.rs:111-140` | one step panics exactly on a response without callback or an Unsrv without service, and fails exactly on a request whose user is gone, a Srv that the client cannot make, or a refused message |
| `ClientCalls.WaitsExactly` | `src/client/core.rs:153-239` | over a life, a client waits for exactly the Acks of those messages it sent of a kind that waits and was not told about since |
| `ClientCalls.ServesExactly` | `src/client/core.rs:193-210` | over a life, the local owner of a topic is the number of the client's last Srv on it, unless an Unsrv followed |
| `ClientCalls.SubscribesExactly` | `src/client/core.rs:165-173` | over a life, the local subscriptions are the client's Subs whose users were not found gone since |
| `ClientCalls.ActCalls` | `src/client/core.rs:142-226` | over a life, nobody is called when the client acts itself |
| `ClientCalls.RspCalls` | `src/client/core.rs:240-243` | over a life, each received response adds one call, with its number, status and payload |
| `ClientCalls.AckCalls` | `src/client/core.rs:234-239` | over a life, each received Ack adds one call exactly when the acknowledged message waits for it |
| `ClientCalls.ReqCalls` | `src/client/core.rs:275-286` | over a life, each received request on a served topic adds one call, to the callback of the last Srv, with the server's number, topic and payload; on any other topic none |
| `ClientCalls.PubCalls` | `src/client/core.rs:244-252` | over a life, each received publication adds one call for each callback that listens and whose user is there, with its topic and payload, and no other |
| `ClientCalls.PubUnsubscribes` | `src/client/core.rs:254-271` | over a life, after a publication the client unsubscribes from exactly the topics that have just lost their last callback, from each once |
| `ClientCores.ClientCore.constructor` | `src/client/core.rs:87-96` | empty tables and an empty directory |
| `ClientCores.ClientCore.BeforeSend` | `src/client/core.rs:153-226` | refines the step function, whose message is the one that the user asked for (`EndToEnd.SaysWhatIsAsked`) |
| `ClientCores.ClientCore.SubscribeOrServe` | `src/client/core.rs:165-210` | the cases that change the local directory, likewise |
| `ClientCores.ClientCore.Send` | `src/client/core.rs:142-151` | sends the message that was built, if any; an error if the connection refuses it |
| `ClientCores.ClientCore.UnsubscribeAll` | `src/client/core.rs:262-271` | one Unsub per topic, in order, up to the first that is refused |
| `ClientCores.ClientCore.CallSubscribers` | `src/client/core.rs:244-273` | the delivery loop over any order of the matching callbacks refines the recursive step |
| `ClientCores.ClientCore.CallOne` | `src/client/core.rs:247-272` | a callback is called, or forgotten with an Unsub for each topic that it leaves empty, up to the first that is refused |
| `ClientCores.ClientCore.AfterReceive` | `src/client/core.rs:228-290` | refines the step function, whose calls are those that the received message accounts for (`ClientCalls`) |
| `ClientCores.ClientCore.Turn` | `src/client/core.rs:115-138` | which wake leads to which step, with the very callbacks dead and messages refused that the wake says, and which end the loop |
| `ClientCores.ClientCore.MainLoop` | `src/client/core.rs:111-140` | the loop lives a life up to the first input that ends it and keeps the agreement; when it ends, the state is that life's, with the last step's effect, and what was sent is what that life sent; exactly when it returns, ends with an error, or dies |
| `Composition.AskedOnce` | `src/client/core.rs:153-181` | two accepted requests of one client carry different ids, both of messages it sent |
| `Composition.Awaited` | `src/client/core.rs:174-181` | the client still waits for every accepted request whose response it has not received |
| `Composition.ResponseFindsCallback` | `src/client/core.rs:240-243` | the next response a client receives finds its callback |
| `Composition.WorldKeeps` | `src/client/core.rs:111-140` | every step of any client or of the server keeps what both sides know of each other |
| `Composition.Worlds` | `src/client/core.rs:111-140` | so it holds after every history |
| `Composition.NoResponseIsLost` | `src/client/core.rs:240-243` | in no history does any client core panic on a received message |
| `Composition.WorldIsRun` | `src/server/core.rs:68-113` | the server's side of every history is a run of the system, so every theorem about runs holds in it |
| `Lives.EndHasLife` | `src/client/core.rs:111-140` | in every history, each client core has lived a life: its state, all it sent and all it received, in order, are those of some sequence of successful steps, and if it has ended, one more step says how; so what `ClientCalls` says of lives holds in histories |
| `Lives.EndExplained` | `src/client/core.rs:111-140` | a client core dies in a history exactly of its own Unsrv for a topic given up as often as taken, and ends with an error exactly for the listed reasons |
| `Lives.UnsrvInHistory` | `src/client/core.rs:193-196` | while it lives, the unwrap for an Unsrv would fail exactly then |
| `Composition.AckAnswersOwn` | `src/client/mod.rs:314-317` | in every history, each Ack that a client core receives answers the one message it sent under that number; without an error it carries Some(n) exactly if that was a publication, so the publisher's unwrap never fails |
| `EndToEnd.SaysWhatIsAsked` | `src/client/core.rs:153-226` | in every history, the one message that a client core sends for a task is the one its user asked for, for each of the nine kinds |
| `EndToEnd.SaidBecause` | `src/client/core.rs:142-226` | in every history, each message a client core sent is what its user asked for in some event, or an Unsub after a publication |
| `EndToEnd.SubArrives` | `src/client/core.rs:165-173` | when the message of a user's subscription has been processed, the server's directory holds it |
| `EndToEnd.UnsubArrives` | `src/client/core.rs:189-192` | after its end has been processed, the directory does not |
| `EndToEnd.SrvArrives` | `src/client/core.rs:202-210` | when the message of a user's service has been processed on a free topic, the client owns it |
| `EndToEnd.UnsrvArrives` | `src/client/core.rs:193-201` | after its end has been processed, nobody owns the topic |
| `EndToEnd.PubArrives` | `src/client/core.rs:158-164` | when a user's publication has been acknowledged without error, each matching inbox gained exactly its topic and payload, no inbox anything else, and the Ack says how many they are |
| `EndToEnd.ReqArrives` | `src/client/core.rs:174-181` | when a user's question has been processed, the topic's owner, if it can be reached, gained exactly its topic and payload |
| `EndToEnd.RspArrives` | `src/client/core.rs:182-188` | when a service's answer to a pending request has been processed, the asker, if it can be reached, gained exactly its status and payload, under its own number |
| `EndToEnd.StopArrives` | `src/client/core.rs:212-218` | when a user's order to stop the bus has been processed, the server has stopped |
| `EndToEnd.CallTold` | `src/client/core.rs:228-290` | in every history, each call of a callback hands over what one message in the client's channel says |
| `EndToEnd.AnswerTold` | `src/client/core.rs:240-243` | in every history, the answer that a callback is told is the one the service's user handed in, to the very question this callback's user asked, or the server's empty timeout |
| `EndToEnd.QuestionTold` | `src/client/core.rs:275-286` | in every history, the question that a service's callback is told is one that somebody's user asked, under the number that its answer needs |
| `EndToEnd.PublicationTold` | `src/client/core.rs:244-252` | in every history, the publication that a callback is told is one that somebody's user published |
| `Composition.InFlightDistinct` | `src/server/core.rs:210-271` | a client's requests on the way, pending entries and responses on the way carry pairwise distinct ids |
| `Composition.InFlightAwaited` | `src/client/core.rs:174-181` | each of these ids is still a key of the response callbacks |
| `Codec.HeaderRoundTrip` | `src/transport/cbor_codec.rs:43-44` | the header read back is the length modulo 2^32 |
| `Codec.HeaderOfValue` | `src/transport/cbor_codec.rs:43-44` | any four bytes are the header of the length they mean |
| `Codec.BigEndian` | `src/transport/cbor_codec.rs:76` | the most significant byte comes first: a further digit to base 256 moves the others one place to the front |
| `Codec.Decode` | `src/transport/cbor_codec.rs:37-66` | a complete frame is consumed and returned; in every other case the buffer stays as it was |
| `Codec.Encode` | `src/transport/cbor_codec.rs:74-79` | appends one frame; if the item does not serialise, an error, and the buffer stays as it was |
| `Codec.DecodeFrame` | `src/transport/cbor_codec.rs:37-79` | decoding what was encoded returns the item and the bytes behind it |
| `Codec.FrameSurvivesExactly` | `src/transport/cbor_codec.rs:37-79` | this holds exactly for bodies of at most 1 MiB; beyond, the encoder still writes a frame |
| `Codec.PartOfFrame` | `src/transport/cbor_codec.rs:40-54` | no proper prefix of a frame decodes to anything |
| `Codec.DecodePrefix` | `src/transport/cbor_codec.rs:37-79` | decoding a prefix of a stream yields exactly the complete items in it and keeps the rest |
| `Codec.ChunkingIsIrrelevant` | `src/transport/cbor_codec.rs:37-79` | however a stream is cut into chunks, decoding after each yields the items in order, and the buffer holds exactly the bytes not yet consumed |

## Left out

- Transports, listeners, TLS, the builder and the stoppers: input and output. A connection is a FIFO channel that may end.
- The two stages from the core's outbox through the stub to the wire are one history per client: a message is in `sent` when the core's send succeeds.
- Once the core is gone, stubs only get errors (`ClientStub`); the system's events after that let the queue grow, which nobody reads.
- The reading loop around the decoder is tokio's; `Codec.Feed` stands for it: append what arrived, decode until nothing comes out.
- CBOR and gzip: serialisation is a parameter, and its inverse is assumed only where a lemma says so. Payloads are byte sequences.
- `src/bin/t2.rs`, logging and `src/debug.rs`.
- Real time: timers and the keep-alive interval are events that may happen at any moment.
- The 32-bit wrap of client and message ids (`src/server/core.rs:119-120`, `335-337`): ids are natural numbers.
- The order of hash maps and hash sets: every theorem holds for every order.
- A client core joins the world when its Register has been processed and before it has sent anything.
- A message that the connection refuses ends the client core; one that it takes may still never reach the server, because the stub may leave first.
- Callbacks are keys: what a user does with what it is sent is not part of this model, except that a user may be gone.
- Agreement between a client's local subscriptions and the server's: not an invariant, since dropping one of two local subscriptions to a topic unsubscribes at the server.
- Delivery of every publication to every matching subscriber: not promised, since the fan-out ends at the first failed delivery. `FanOut` and `PublishReport` say what is.
- Waiting for Acks with a time limit (`src/client/mod.rs:344-357`) is not part of this model; what an Ack says is.
- `ServerCores.ServerCore.Run`: the state of a run knows no trie nodes, so whether an Unsrv for a wildcard topic gets its error is part of the event; `ServerCores.ServerCore.Turn` says what it is.
