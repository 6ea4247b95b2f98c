# FAME-Z fabric: a Dafny model

FAME-Z connects virtual machines and processes through one shared mailbox file and a set of
eventfds used as doorbells. A server hands out peer ids and eventfds; every peer owns one mailslot;
a sender fills its own slot and rings the receiver; a small Gen-Z control plane configures fabric
addresses on top. This project models the five parts of that system that carry real state and
proves what they promise over whole runs. `dafny verify dfyconfig.toml` verifies everything.

## How the project is organised

| files | part of the system |
|---|---|
| Handshake, HandshakeSafety, HandshakeTheorems, HandshakeSends | the mailslot/doorbell handshake of the kernel driver as a small-step system of N adapters: every store to a mailslot or to incoming_slot is a step, and steps of senders, interrupt handlers and readers interleave freely, the two stores of a release included |
| Driver, Bridge, IrqSetup | the same driver as imperative code: sending, the interrupt handler, releasing, the bridge's write(), staged interrupt allocation and its undoing |
| LinkLayer, AttributeTexts | the link-level texts the driver recognises and answers, and how far it and the server understand each other |
| DriverSteps | the calls in place are steps of the handshake |
| Addressing | the addresses the control plane hands out are those under which the driver reaches a client |
| PeerIds, Directory, DirectoryRuns, DirectoryCalls | the reference ivshmem server and client in C: id allocation, the replicated peer directory, and the calls in place |
| SwitchClient, SwitchServer, SwitchEffects, SwitchViews, Recycling, Departures, SwitchCalls | the Python server and client: bounded ids, recycled eventfds or departures, the server's own advertisement, the first-pass stream |
| Text, Csv, Requests, RequestFacts, RequestTags, RequestKinds, RequestMeaning, RequestCalls | the control-plane texts: codecs, dispatch, handlers, ranks, tags, and the handlers in place |
| ControlPlane, Convergence, Quiescence | a managing server and its clients exchanging those texts: configuration converges and comes to rest |
| Mailbox | the mailbox file as a byte array edited in place |

Where the source changes things in place, a class with the source's fields carries methods that are
proved equal to a function of the old state, and the theorems are about that function. For example
`SwitchCalls.Switch.ConnectionMade` is proved equal to `SwitchServer.Connect`, and the recycling
theorems quantify over every run of `SwitchServer.Connect` and `SwitchServer.Lose`. The slot that
`Driver.Adapter.CreateOutgoing` and `Bridge.Bridge.Write` leave is the slot `Published` that the
handshake reaches step by step in `HandshakeSends.SendCompletes`.

## Main results

* Handshake. In every reachable state doorbells, live references and busy slots fit together
  (`DoorbellsAndPointers`, and `StaleReference` for the moment between the two stores of a release);
  every copy a reader makes is byte for byte one accepted send addressed to it and no send is copied
  twice, although the interrupt handler may repoint `incoming_slot` in the middle (`CopiedBytes`,
  `CopyInProgress`); accepted sends are conserved (`Conservation`); a stomped slot is lost for ever
  (`StompedForEver`).
* "The message read is the message acknowledged" is false of the driver: `OverlapFromStart` gives the
  run from start-up, for any two senders, receiver and ordinary messages. It holds exactly when
  `incoming_slot` still names the slot that was read (`AcknowledgedIffStillIncoming`), and over a
  whole read exactly when no ordinary message is delivered meanwhile (`FreedIffUninterrupted`).
* The driver's calls in place refine the handshake: sending, releasing, delivering and answering a
  link request are runs of it (`SendAs`, `ReleaseAs`, `MailAs`, `LinkAs`).
* The server stores the class a component answers with exactly when it holds no white space, comma or
  equals sign (`StoredIff`); the class an adapter starts with does (`StartingClassIgnored`).
* Directory agreement for the C pair over every run, ids reused (`DirectoryAgreement`). The server's
  command line also admits zero vectors; agreement over every run holds exactly from one vector on
  (`AgreementIffVectors`).
* Python server and client: the join stream ends the first pass exactly at its last packet
  (`FirstPass`). With recycling and no failed handshake the eventfds of an id never change and each
  client's knowledge is determined by who was there (`BindingForEver`, `KnowsExactly`); with failed
  handshakes the bindings survive exactly the runs no step of which meets a condition the server
  could test (`BindingsKeptIff`). Without recycling a client lives exactly until a connection it has
  not looked up closes, and agrees with the server until then (`SurvivesExactly`).
* Control plane: no message storms (`ReplyRanksLower`, `ChainsAreShort`), tags used once
  (`ConsumedForEver`), convergence of configuration (`Converges`), and from every reachable state
  deliveries alone reach that result (`CanSettle`, `DeliveriesRunOut`).

## Assumptions

* Handshake: a doorbell is pending until the interrupt handler's store that ends it. Two sends of one
  adapter do not interleave, there is one reader per adapter, interrupts come only from doorbells, and
  no adapter restarts. A link-level request is handled when the receiver's own sender is idle. Nothing is assumed about `peer_id`: `famez_adapter_create` zeroes the
  slot in which the server wrote it, so a link reply goes wherever the field says or is refused.
* Directory: sockets are reliable FIFO queues of (number, optional fd); notifiers and sockets that the
  operating system hands out are new. The Python client's three initial words arrive together, then
  one packet at a time, as the comments in twisted_client.py describe.
* A client that looks names up does so between packets; `LookUpInBatch` shows that the place within a
  batch does not matter.
* Control plane: delivery is lossless and FIFO between each client and the server (queues of any
  length, which covers the one-message mailslots), clients are honest and do not die, the server is
  smart, class names are single words.
* Clocks, `copy_from_user`, `kstrtoint`, PCI and allocation outcomes, random id choices and what other
  processes do during a wait are parameters of the calls.

## Where code and documentation disagree

* famez_server.py admits 62 clients; a file made by the server has 16 slots, and set-up goes through
  exactly for 14 or fewer (`Mailbox.MailBox.Initialize`). A longer file left from before admits more,
  but slots beyond the sixteenth keep their old contents.
* A comment in fz_bridge.c announces "CID,SID" but write() takes the first field as the SID; the model
  follows the code.
* `clear_mailslot` wipes the node name only, whatever its callers' comments suggest; `retrieve` is
  what empties a message.
* The client's branch for a reconnecting peer cannot be reached: an assertion before it fails first
  (`SwitchClient.SecondBatchFails`).

## Model

| member | source | states |
|---|---|---|
| HandshakeSafety.StepInv | kernel/famez/famez_IVSHMSG.c:57-129 | each of the sixteen steps keeps the handshake invariant, whatever adapter takes it; the two stores of a release are two steps |
| HandshakeSafety.RunInv | kernel/famez/famez_MSI-X.c:19-61 | every interleaving of steps from a state with the invariant keeps it |
| HandshakeTheorems.DoorbellsAndPointers | kernel/famez/famez_IVSHMSG.c:74-91 | at most one doorbell per sender over all destinations; a doorbell or a live incoming_slot at d means the slot is busy and its last_responder is d; never both, never two |
| HandshakeTheorems.StaleReference | kernel/famez/famez_IVSHMSG.c:125-128 | between the two stores of a release no step but the second reads or changes the stale incoming_slot, and the handler is kept out |
| HandshakeSends.WindowFromStart | kernel/famez/famez_IVSHMSG.c:123-129 | from start-up, for any sender, receiver and ordinary message, the freed sender can publish and ring again between the two stores, so doorbell and stale reference exist together |
| HandshakeTheorems.CopiedBytes | kernel/famez/fz_bridge.c:162-190 | a finished copy equals one accepted send addressed to that reader, never a link request; no send is copied twice |
| HandshakeTheorems.CopyInProgress | kernel/famez/fz_bridge.c:182-184 | during a copy the bytes so far are a prefix of that one send and the rest still lies unchanged in the slot |
| HandshakeTheorems.NoWildReads | kernel/famez/famez_IVSHMSG.c:100-129 | a reader's slot is always valid: every copy stays in the buffer and release never follows NULL |
| HandshakeTheorems.NoWildWrites | kernel/famez/famez_IVSHMSG.c:81-84 | an accepted send can always take its next step and never writes past its own buffer |
| HandshakeTheorems.Conservation | kernel/famez/famez_MSI-X.c:48-54 | accepted sends equal clears plus busy slots; a busy slot is exactly one of publishing, rung, live incoming, stomped; a free slot is none |
| HandshakeTheorems.StompedByOverwriteOnly | kernel/famez/famez_MSI-X.c:51-53 | a slot that came to rest announced nowhere and referred to by nobody did so at an interrupt that replaced the live reference to it by another |
| HandshakeTheorems.OverwriteStomps | kernel/famez/famez_MSI-X.c:51-53 | every delivery that finds incoming_slot occupied stomps the slot it named |
| HandshakeTheorems.StompedIffOverwritten | kernel/famez/famez_MSI-X.c:51-58 | a run from start-up leaves a stomped slot if and only if some delivery found incoming_slot occupied |
| HandshakeTheorems.StompedForEver | kernel/famez/famez_IVSHMSG.c:74-78 | a stomped slot never changes again in any run and none of its owner's later sends is accepted |
| HandshakeTheorems.AcknowledgedIffStillIncoming | kernel/famez/famez_IVSHMSG.c:123-129 | release frees the slot that was read exactly when incoming_slot still names it; otherwise it frees another busy slot whose message nobody copied, and the one read stays stomped |
| HandshakeTheorems.FreedIffUninterrupted | kernel/famez/famez_MSI-X.c:51-54 | from await to release, whatever happens in between, the slot read is the slot freed exactly when no ordinary message was delivered to the adapter |
| HandshakeSends.SendCompletes | kernel/famez/famez_IVSHMSG.c:81-91 | an undisturbed send to a free slot ends with length, terminator, destination, body and one doorbell, and nothing else changed |
| HandshakeSends.ReadCompletes | kernel/famez/fz_bridge.c:182-184 | an undisturbed read copies the whole message and nothing else changes |
| HandshakeSends.OverlapLosesMessage | kernel/famez/famez_MSI-X.c:48-53 | two ordinary messages waiting at one idle receiver: the copied one stays unacknowledged, the uncopied one is acknowledged |
| HandshakeSends.OverlapFromStart | kernel/famez/famez_MSI-X.c:48-53 | the same from start-up, for any two senders, receiver and messages that are not link requests |
| HandshakeSends.LinkCompletes | kernel/famez/famez_link.c:35-79 | a link request undisturbed: taken, then answered by a whole send, refused or without an answer |
| Driver.SenderIdentified | kernel/famez/famez_MSI-X.c:24-40 | packing, splitting and table search lead back to the sender for every id up to the server; vector 0 and unknown vectors match nothing |
| Driver.StrChr | kernel/famez/fz_bridge.c:222 | the first occurrence before any NUL, or none |
| Driver.AddressLaws | kernel/famez/famez_IVSHMSG.c:36-51 | a hundred CIDs of SID 27 belong to each peer, or the peer id itself; every error of a send by its number, in the order of the tests |
| Driver.Adapter.CreateOutgoing | kernel/famez/famez_IVSHMSG.c:22-92 | the message reaches the peer whose address it is, terminated, with a doorbell that decodes to that peer and the sender; each error and the timeout by its number, leaving slot and doorbell unchanged |
| Addressing.SettledIsReached | kernel/famez/famez_IVSHMSG.c:36-49 | a client configured by the control plane is reached by its SID and CID at its own slot and no other |
| Driver.Adapter.ReleaseIncoming | kernel/famez/famez_IVSHMSG.c:123-129 | the incoming slot is emptied and forgotten, its other fields kept, the lock dropped |
| Driver.Adapter.AllMsix | kernel/famez/famez_MSI-X.c:12-61 | unmatched vectors change nothing; mail sets incoming_slot; a link request is taken; the lock is dropped on every path |
| Driver.Adapter.TakeLinkRequest | kernel/famez/famez_link.c:24-82 | the message is taken exactly when it is a ping, an attribute request or a configuration; then the sender's slot is emptied, the core updated and the reply published, otherwise nothing changes but the sender's address |
| LinkLayer.ScanShow | kernel/famez/famez_link.c:63-64 | a printed 32-bit number with no digit behind it is scanned back |
| LinkLayer.ConfigureRecognised | kernel/famez/famez_link.c:63-78 | the server's configuration text, tracker included, gives the driver every number of it and is acknowledged with its tag |
| LinkLayer.AskRecognised | kernel/famez/famez_link.c:47-60 | the server's attribute request is recognised whatever its tracker and answered with class and address |
| LinkLayer.DriverAckMeans | kernel/famez/famez_link.c:72-77 | the server reads the driver's acknowledgment as that of its tag |
| AttributeTexts.StoredIff | kernel/famez/famez_link.c:51-59 | with and without a tracker, the server stores exactly the answered class and address if and only if the class holds no white space, comma or equals sign |
| AttributeTexts.StoredValues | ivshmem_twisted/famez_requests.py:206-209 | whatever text arrives, no stored attribute holds white space, a comma or an equals sign |
| Csv.ParsedValues | ivshmem_twisted/famez_requests.py:54-63 | whatever is parsed, no value holds a separator or a character that was not there |
| LinkLayer.StartingClassIgnored | kernel/famez/famez_adapter.c:140 | the answer of an adapter with the class it starts with is ignored by the server |
| LinkLayer.PongIffBarePing | kernel/famez/famez_link.c:34-45 | a pong is answered if and only if the message is a bare ping; one with a tracker is ordinary mail |
| LinkLayer.OrdinaryMail | kernel/famez/famez_link.c:35-81 | a message beginning with none of the three letters of the texts of the driver is ordinary mail |
| LinkLayer.RuleOnMessage | kernel/famez/famez_link.c:35-64 | in a terminated slot the decision depends on the message alone, not on the bytes behind it |
| DriverSteps.SendAs | kernel/famez/famez_IVSHMSG.c:22-92 | a send in place is no step, a refused send or a whole send of the handshake, and rings exactly when that run does |
| DriverSteps.ReleaseAs | kernel/famez/famez_IVSHMSG.c:123-129 | a release in place is the two stores of the handshake |
| DriverSteps.MailAs | kernel/famez/famez_MSI-X.c:48-54 | the interrupt handler on ordinary mail is one delivery of the handshake |
| DriverSteps.LinkAs | kernel/famez/famez_link.c:24-82 | the interrupt handler on a link request is the handshake's taking of it and its reply |
| Bridge.TargetLaws | kernel/famez/fz_bridge.c:233-250 | a keyword is the server, before the first comma stands the SID and behind it the CID, anything else is a peer id; number errors as they come |
| Bridge.Bridge.Write | kernel/famez/fz_bridge.c:198-272 | for every input: whom the bytes after the first colon reach (server for a keyword, the peer of SID and CID, or a bare peer id), in at most three attempts; the full length exactly when the doorbell was rung; every error by its number; mutex released |
| Bridge.Bridge.Attempts | kernel/famez/fz_bridge.c:257-267 | retries only after a timeout and at most twice; success, error or time-out decided by the slot and the responders |
| Bridge.TerminatorEndsSearch | kernel/famez/fz_bridge.c:217-222 | the appended NUL bounds the colon search without changing its result |
| IrqSetup.Interrupts.Setup | kernel/famez/famez_MSI-X.c:67-164 | succeeds exactly when the platform grants everything; then all IRQs are requested, otherwise nothing stays allocated and the error is that of the first failing stage |
| IrqSetup.Interrupts.RequestAll | kernel/famez/famez_MSI-X.c:134-155 | all IRQs requested, or each one already requested freed exactly once |
| IrqSetup.Interrupts.Teardown | kernel/famez/famez_MSI-X.c:170-184 | frees exactly the requested IRQs; a second call does nothing |
| PeerIds.WindowSize | docs/ivshmem-server/ivshmem-server.c:160-165 | the first n wrapping 16-bit candidates are n different ids |
| PeerIds.Available | docs/ivshmem-server/ivshmem-server.c:160-172 | the search succeeds whenever fewer than 65535 ids are taken |
| PeerIds.FirstFreeUnique | docs/ivshmem-server/ivshmem-server.c:160-172 | the id found is unique, in range and free |
| Directory.FoldNewPeer | docs/ivshmem-client/ivshmem-client.c:120-140 | a batch for an unknown peer adds it with its vectors in order |
| Directory.FoldWelcome | docs/ivshmem-server/ivshmem-server.c:183-209 | a new client that reads its welcome has exactly the other peers, in order, and its own vectors |
| Directory.FoldDeparture | docs/ivshmem-client/ivshmem-client.c:106-118 | a departure message removes exactly that peer from the table |
| DirectoryRuns.RunInv | docs/ivshmem-server/ivshmem-server.c:75-214 | connects, failed connects, disconnects and deliveries keep agreement for every client |
| DirectoryRuns.DirectoryAgreement | docs/ivshmem-server/ivshmem-server.c:132-214 | after any run every client plus its undelivered messages has its own vectors in order and exactly the other peers, in the order of the server, each with its write eventfds vector by vector; no client has failed |
| DirectoryRuns.NoVectorsNoAgreement | docs/ivshmem-server/main.c:130 | with zero vectors every join breaks the agreement of every earlier client |
| DirectoryRuns.NoVectorsFromStart | docs/ivshmem-server/main.c:130 | with zero vectors two connects from start-up break agreement |
| DirectoryRuns.AgreementIffVectors | docs/ivshmem-server/main.c:130 | the directory agrees after every run if and only if there is at least one vector |
| DirectoryCalls.IvshmemServer.SearchPeer | docs/ivshmem-server/ivshmem-server.c:429-439 | the first peer with the id, or none exactly when no peer has it |
| DirectoryCalls.IvshmemServer.AllocateId | docs/ivshmem-server/ivshmem-server.c:157-172 | the first free id cyclically from cur_id; fails exactly when the 65535 candidates are all taken |
| DirectoryCalls.IvshmemServer.CreateVectors | docs/ivshmem-server/ivshmem-server.c:174-181 | all notifiers created, or each one created cleaned up once |
| DirectoryCalls.IvshmemServer.HandleNewConn | docs/ivshmem-server/ivshmem-server.c:132-223 | succeeds exactly when every stage does; then each earlier peer gets one message per vector, in order, with its write eventfd, and the newcomer the initial info first and its own read eventfds last; every failure leaves peers, sockets and notifiers as they were |
| DirectoryCalls.IvshmemServer.FreePeer | docs/ivshmem-server/ivshmem-server.c:75-94 | removes the peer, sends every other one its id and nobody anything else, cleans up each of its notifiers exactly once |
| DirectoryCalls.IvshmemClient.Connect | docs/ivshmem-client/ivshmem-client.c:180-244 | the three initial messages, each accepted only in its own form |
| DirectoryCalls.IvshmemClient.HandleServerMsg | docs/ivshmem-client/ivshmem-client.c:92-141 | departure, new peer, one more vector of a peer or of its own, unknown departures and a 65th vector: what each message does to the table |
| SwitchClient.FirstPassPrefix | ivshmem_twisted/twisted_client.py:253-260 | if the first pass is on after a stream it was on after every part of it, with no notifier and nothing armed |
| SwitchClient.FirstPass | ivshmem_twisted/twisted_client.py:201-288 | for any number of peers the join stream ends the first pass exactly at its last packet, with every list, notifier, name and armed vector in place |
| SwitchClient.EveryoneReachable | ivshmem_twisted/twisted_client.py:306-308 | after the first pass the notifier of every known destination exists for every source up to the server |
| SwitchClient.NewPeerBatch | ivshmem_twisted/twisted_client.py:237-270 | a later batch gives the new peer its list and notifiers and changes no other |
| SwitchClient.DepartureHandledIffNamed | ivshmem_twisted/twisted_client.py:215-223 | a departure is handled exactly when the peer's name has been looked up |
| SwitchClient.LateJoinerDeparts | ivshmem_twisted/twisted_client.py:215-217 | the departure of a peer that joined after the first pass ends a client that has not looked names up since |
| SwitchClient.SecondBatchFails | ivshmem_twisted/twisted_client.py:238-246 | one more eventfd for a full list fails the assertion before the update branch |
| SwitchClient.HelloAcceptedIff | ivshmem_twisted/twisted_client.py:172-198 | the first delivery is accepted exactly if it is version 0, a positive id and -1 with the mailbox fd |
| SwitchClient.BadWordsFail | ivshmem_twisted/twisted_client.py:208-213 | a later delivery that is not one non-negative word ends the client |
| SwitchClient.ServerInferred | ivshmem_twisted/twisted_client.py:232-235 | without a server id in the globals the peer before our own first eventfd is taken for it |
| SwitchServer.AllIds | ivshmem_twisted/twisted_server.py:251-252 | exactly the ids 1..nClients, nClients of them |
| SwitchServer.IdAvailable | ivshmem_twisted/twisted_server.py:244-260 | fewer than nClients registered leaves a free id in 1..nClients |
| SwitchServer.Lowest | ivshmem_twisted/twisted_server.py:260 | the least of the available ids |
| SwitchServer.StepInv | ivshmem_twisted/twisted_server.py:121-237 | every connection, failure and loss keeps the server's tables consistent |
| SwitchServer.ClientsAndRecycledDisjoint | ivshmem_twisted/twisted_server.py:208-224 | over every run, failed handshakes included, no id is both registered and recycled, registered ids lie in 1..nClients and sockets differ |
| SwitchServer.RecyclingClosesNothing | ivshmem_twisted/twisted_server.py:222-224 | over every run a recycling server closes no eventfd and wipes no mailslot |
| SwitchEffects.ClosesExactly | ivshmem_twisted/twisted_server.py:226-237 | over every run without recycling the closed eventfds are those of the connections that left, in order, and the wiped mailslots are theirs; none is closed twice or while its connection is open |
| SwitchEffects.ConnectIs | ivshmem_twisted/twisted_server.py:121-208 | a connection case by case: who is registered, what is sent on each socket packet by packet, the single word -1 to a refused one |
| SwitchEffects.LoseIs | ivshmem_twisted/twisted_server.py:213-237 | a loss field by field: who goes, who is told, what is kept, closed and wiped |
| Recycling.BindingForEver | ivshmem_twisted/twisted_server.py:143-147 | with recycling and no failed handshake an id's eventfds never change, and the ids that have some are those that ever joined |
| Recycling.CanJoin | ivshmem_twisted/twisted_server.py:244-260 | whenever fewer than nClients are registered a clean join with a free id is possible |
| Recycling.KnowsExactly | ivshmem_twisted/twisted_server.py:163-182 | a client holds the present eventfds of every active peer it knows, and knows one exactly when it was active at the join or first joined later |
| Recycling.KeptIffUndisturbed | ivshmem_twisted/twisted_server.py:122-124 | a step loses or changes a binding exactly when it closes a connection under whose id another one is registered or recycled with other eventfds, or is a failing handshake for a recycled id |
| Recycling.BindingsKeptIff | ivshmem_twisted/twisted_server.py:220-224 | over every recycling run, failures included, bindings are kept throughout exactly when no step does so |
| Recycling.FailedHandshakeRebinds | ivshmem_twisted/twisted_server.py:156-158 | a failed handshake lost late takes an id from a live client and binds it to other eventfds |
| Recycling.RefusalStopsClients | ivshmem_twisted/twisted_server.py:226-228 | without recycling a refused connection is announced as -1 and every Python client fails |
| Departures.SurvivesExactly | ivshmem_twisted/twisted_client.py:215-223 | without recycling, over every history and future: a registered client is alive exactly when every connection that closed had been looked up, and then its lists and notifiers are those of the registered clients and the server |
| Departures.LeaveNews | ivshmem_twisted/twisted_server.py:226-228 | without recycling every closed connection, refused ones included, is announced to every client still registered |
| Departures.LookUpInBatch | ivshmem_twisted/twisted_client.py:98-103 | a look-up in the middle of a batch leaves the client as one after it would |
| SwitchCalls.Switch.CreateNewPeerId | ivshmem_twisted/twisted_server.py:239-260 | -1 exactly when full, otherwise a free id, the lowest one unless smart |
| SwitchCalls.Switch.ConnectionMade | ivshmem_twisted/twisted_server.py:121-208 | in place: each case of a connection, packet by packet; a full server answers the single word -1 |
| SwitchCalls.Switch.ConnectionLost | ivshmem_twisted/twisted_server.py:213-237 | in place: the holder of the id goes; with recycling the connection is kept, without it the others are told, its eventfds closed and its mailslot wiped |
| SwitchCalls.SwitchPeer.Deliver | ivshmem_twisted/twisted_client.py:161-223 | the fd is consumed with its words and the client follows the specification of one packet |
| SwitchCalls.SwitchPeer.Store | ivshmem_twisted/twisted_client.py:232-288 | one eventfd in place, with both assertions, the waiting test and the housekeeping |
| Csv.ParseCsv | ivshmem_twisted/famez_requests.py:54-63 | the loop over the elements computes the dictionary specification |
| Csv.CsvRoundTrip | ivshmem_twisted/famez_requests.py:54-63 | parsing inverts printing for every list of pairs without commas, equals signs or outer space |
| Csv.DistinctKeysKept | ivshmem_twisted/famez_requests.py:60 | with distinct keys every printed value is found again |
| Csv.LastWins | ivshmem_twisted/famez_requests.py:60 | of several pairs with one key the last counts |
| Csv.NoEqualsIgnored | ivshmem_twisted/famez_requests.py:58-62 | an element without an equals sign is passed over |
| Csv.ThirdPartIgnored | ivshmem_twisted/famez_requests.py:59-60 | of an element with several equals signs the first two parts count |
| Csv.SpacesIgnored | ivshmem_twisted/famez_requests.py:59-60 | white space around keys and values does not matter |
| Requests.TokenAfterPayload | ivshmem_twisted/famez_requests.py:235-236 | the tracker token cannot overlap a payload that lacks it |
| Requests.TrackerRoundTrip | ivshmem_twisted/famez_requests.py:95-98 | suffixing and splitting gives back payload and tracker number |
| Requests.Chelsea | ivshmem_twisted/famez_requests.py:34-49 | the call goes to the name that the first k words spell, every shorter run spelling none, with the rest as arguments; nothing is called when no run spells one |
| RequestFacts.AfterAckRoundTrip | ivshmem_twisted/famez_requests.py:86-89 | what was stored with a tag is what an acknowledgment asks for |
| RequestFacts.KnownAck | ivshmem_twisted/famez_requests.py:107-124 | a known acknowledgment consumes its tag and sends the Peer-Attribute request |
| RequestFacts.ReplyRanksLower | ivshmem_twisted/famez_requests.py:232-253 | for every text a handler's reply has strictly lower rank |
| RequestFacts.ChainsAreShort | ivshmem_twisted/famez_requests.py:107-225 | a chain of replies never exceeds the rank of its first message, five at most |
| RequestTags.HandleTags | ivshmem_twisted/famez_requests.py:78-129 | every request keeps outstanding tags below the next one and properly followed up; it issues the next tag or consumes the one acknowledged |
| RequestTags.NextTagIsNew | ivshmem_twisted/famez_requests.py:86-90 | the next tag is never outstanding, so tags are distinct |
| RequestTags.UnknownAck | ivshmem_twisted/famez_requests.py:107-120 | an unknown or repeated acknowledgment sends nothing and changes no tag |
| RequestTags.TagsOverRuns | ivshmem_twisted/famez_requests.py:70-90 | over every run of requests the tag table stays sound and numbers only grow |
| RequestTags.ConsumedForEver | ivshmem_twisted/famez_requests.py:107-114 | a consumed tag never returns, so one acknowledgment at most consumes it |
| RequestKinds.ConfigureKind | ivshmem_twisted/famez_requests.py:180-184 | the tagged CTL-Write text carries back SID, CID and tag to its receiver |
| RequestKinds.ConfigurationFields | ivshmem_twisted/famez_requests.py:180-182 | all six fields of the configuration message, the manager's address included, are read back by name |
| RequestKinds.AckedKind | ivshmem_twisted/famez_requests.py:132-134 | the Standalone Acknowledgment text carries back its tag |
| RequestKinds.AttributesKind | ivshmem_twisted/famez_requests.py:141-146 | the Link CTL ACK text carries back class, SID and CID |
| RequestCalls.Process.SendPayload | ivshmem_twisted/famez_requests.py:78-102 | the text splits back into payload and new tracker; a tag sent with it was not in use and is now outstanding |
| RequestMeaning.HandleUnderstood | ivshmem_twisted/famez_requests.py:107-225 | what every kind of request does and what its reply means to the receiver, refusals, unknown tags and unintelligible texts included |
| RequestMeaning.PingAnswered | ivshmem_twisted/famez_requests.py:223-224 | a text whose first word is ping is answered pong and changes nothing else |
| RequestMeaning.HandleContinues | ivshmem_twisted/famez_requests.py:235-242 | the tracker of a request, or our own if that is 0 or missing, is what the reply counts on from |
| RequestMeaning.TrackerGrows | ivshmem_twisted/famez_requests.py:92-97 | what one process sends with tracker n another answers with n + 1 |
| RequestMeaning.WriteFieldByField | ivshmem_twisted/famez_requests.py:153-160 | which fields an incomplete CTL-Write sets and when it is acknowledged |
| RequestMeaning.RfcIfMicroseconds | ivshmem_twisted/famez_requests.py:171-179 | a Link RFC counts exactly when its delay speaks of microseconds |
| RequestCalls.Process.HandleRequest | ivshmem_twisted/famez_requests.py:232-253 | in place, for every text: tags stay sound and numbers only grow, the reply ranks strictly lower and carries the next tracker, a ping is answered pong, and what was asked is what is done and answered |
| ControlPlane.ServerRefines | ivshmem_twisted/twisted_server.py:304-322 | the server's handling of a text is the abstract step on what the text means |
| ControlPlane.ClientRefines | ivshmem_twisted/twisted_client.py:312-322 | the same for a client |
| Convergence.StepInv | ivshmem_twisted/famez_requests.py:107-217 | joins, requests and deliveries keep every outstanding tag in exactly one message and every requester answered or about to be |
| Convergence.Converges | ivshmem_twisted/famez_requests.py:167-217 | any interleaving that goes quiet leaves no tag, every requester with SID 27 and CID 100*id, all different, and the server's stored attributes equal to them |
| Quiescence.DeliveriesRunOut | ivshmem_twisted/famez_requests.py:232-253 | deliveries to and from a peer are bounded by what its channels hold, whatever the others do |
| Quiescence.CanSettle | ivshmem_twisted/twisted_server.py:208-211 | after any run deliveries alone reach a quiet state with no tag outstanding and every requester settled |
| Mailbox.UnpackPack | ivshmem_twisted/famez_mailbox.py:83-86 | a packed number is read back |
| Mailbox.PackSmall | ivshmem_twisted/famez_mailbox.py:229 | the eight bytes of a number, the least significant first |
| Mailbox.SpliceSlot | ivshmem_twisted/famez_mailbox.py:229-232 | a write inside one slot changes that slot only |
| Mailbox.FillMeans | ivshmem_twisted/famez_mailbox.py:229-232 | filling replaces the message, keeps name and peer id, and terminates it |
| Mailbox.TakeMeans | ivshmem_twisted/famez_mailbox.py:193-195 | taking empties the message and keeps name and peer id |
| Mailbox.NameMeans | ivshmem_twisted/famez_mailbox.py:240-247 | naming changes the node name only |
| Mailbox.GlobalsSurvive | kernel/famez/famez.h:40-55 | the packed globals read back in the driver's struct order |
| Mailbox.FreshMeans | ivshmem_twisted/famez_mailbox.py:91-101 | a fresh slot has its own peer id, its name and no message |
| Mailbox.MailBox.Fill | ivshmem_twisted/famez_mailbox.py:211-232 | accepted exactly for a valid slot and under 384 bytes; then that message alone changes, and it stomps exactly when the old one was not taken |
| Mailbox.MailBox.Retrieve | ivshmem_twisted/famez_mailbox.py:179-203 | returns the stored name and message, empties that slot's message or nothing |
| Mailbox.MailBox.ClearMailslot | ivshmem_twisted/famez_mailbox.py:240-247 | wipes or replaces the node name of one slot and nothing else |
| Mailbox.MailBox.ReadLayout | ivshmem_twisted/famez_mailbox.py:254-263 | the client's offsets give the same numbers as the driver's struct |
| Mailbox.MailBox.Initialize | ivshmem_twisted/famez_mailbox.py:75-106 | goes through exactly when the last peer id fits, which is for 14 clients or fewer in a 16-slot file; then globals and peer ids are in place, and in the first sixteen slots empty messages and the server's name |

## Left out

- Handshake: which messages are link requests is a parameter of the system, instantiated with the
  driver's rule in DriverSteps; the text of a reply is arbitrary there.
- LinkLayer: the 128-byte reply buffer is not modelled.
- Driver.Adapter.CreateOutgoing: `wait_event` and the sleeps are a list of outcomes; jiffies and the
  longest-wait statistic are not modelled.
- Mailbox.MailBox.Fill: the bytes of a string are given; UTF-8 encoding and decoding are not modelled.
- RequestCalls.Process.SendPayload: the 384-byte limit of the mailbox, which would stop an over-long
  reply, and the eventfd increment are not part of the text-level model.
- Requests.Chelsea: names in the module's namespace that are not handlers are one inert case, because
  calling them raises an error or returns at once; Python's other Unicode spaces and the underscores
  its int() tolerates are not modelled.
- SwitchCalls.Switch.ConnectionMade: exceptions while advertising to other sockets, because sockets
  are reliable here; the mailbox look-up of the node name.
- The bridge's read text ("CID,SID:" prefix), its user-buffer length test and `copy_to_user`; open,
  flush, release and poll. An early exit of read is the reader's release without a finished copy.
- `famez_await_incoming` has no method of its own: it is the Await step of the handshake.
- Twisted, sockets, SCM_RIGHTS, mmap, file permissions, eventfd system calls.
- PCI probe and removal, BAR mapping, module initialisation, Gen-Z bus and class registration.
- Interactive commands, source spoofing, printing, command-line parsing.
- The monolithic driver, the rocpyle load generators and docs/experiments.
