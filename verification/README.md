# OpenXgram: a verified model of its small protocols

OpenXgram connects AI agents across machines. Most of it moves messages between services, but several small
protocols and books inside it carry invariants that span operations, machines and crashes. This project models
them in Dafny and proves those invariants.

| module | what it models |
|---|---|
| `Json`, `JsonText`, `Canonical`, `Anp`, `AnpText` | JSON values with printer and parser, canonical text, signed message envelopes |
| `Framing` | one JSON value per line: the writer and reader tasks |
| `Rpc` | the JSON-RPC peer (JSON-RPC 2.0, sections 4, 4.1 and 5): callers, the dispatch loop and the agent as interleaved steps |
| `Session` | one prompt turn: the select between the answer and the session's update channel |
| `Outbound`, `Retransmission`, `AppAck` | the outbound queue: back-off, retransmission, archiving, transport ACK and application ACK |
| `Address`, `Urls`, `Gossip`, `Merging`, `Fleet` | peer addresses, the peer registry of one machine, and gossip between any number of machines |
| `Wallets`, `Payments`, `Topups` | sub-wallets, the ledger, top-ups and automatic top-ups |
| `Ingest` | ingestion of a growing log by byte offset |
| `Timestamps`, `Calendar`, `Polling`, `PollingState` | order of timestamp text, and polling by timestamp watermark |
| `Singleton`, `Processes` | one daemon per data directory, with crashes |
| `Ports` | the port blocks of the bots of a machine |
| `AcpRegistry`, `SessionLife` | the registry of agent sessions under concurrent requests |
| `Delivery`, `BatchLog` | what happens to a batch of inbound envelopes |
| `Prelude` | options, results, two facts about finite sets |

`dafny verify dfyconfig.toml` checks the whole project.

**How the models are built.** What the source updates in place is a class whose methods are proved against
specification functions (`RpcPeer`, `Worker`, `Registry`, `Bank`, `Ingester`, `Poller`, `DataDir`, `BotRegistry`,
`AcpHttpState`, `SpawnLimiter`, `Daemon`). Where several parties interleave there is a state machine beside it, whose
steps are the statements or locked sections of the source, and the theorems are about every run of it. Network
calls, terminals, the database's failures, clocks and choices of the scheduler are parameters: the theorems hold
for all of them. A table is a map or a sequence and each SQL statement one update. Decoding of session updates,
digests and signature checks are function parameters.

**Where code and comments disagree the model follows the code.**

- The reader task reads on after a line it cannot parse (`crates/openxgram-acp/src/transport.rs:205-209`), but the
  dispatch loop ends at that item (`crates/openxgram-acp/src/rpc.rs:147-150`): `Rpc.BadLineEndsDispatch`.
- A response with `"error": null` is an error response.
- The comment on the first successful post says attempts stay 0 (`crates/openxgram-cli/src/daemon_workers.rs:1646`);
  they stay what the failures made them, so failures of the first post use up retransmissions:
  `Outbound.PostsAreBounded`.
- The wallet module describes spending as recorded in the ledger, but the cost of a message sent from the interface
  is added to `spent` with neither a balance check nor a ledger row (`crates/openxgram-cli/src/daemon_gui.rs:12604-12616`).
  So a balance can be negative (`Wallets.ChargeOverdraws`): exactly when such a charge, or a top-up by a negative
  amount, exceeds the balance it meets (`Wallets.OverdrawnOnlyBy`, `Wallets.BalancesAndLimits`). What the ledger
  still explains is `Wallets.LedgerMatchesWallets`.
- A top-up of an agent without a wallet takes the amount from the master and then reports an error:
  `Wallets.WealthChangesOnlyBy`.
- Find-or-create of agent sessions is meant to keep one session per label; overlapping creates can break that
  (`AcpRegistry.OverlappingCreatesDuplicate`): exactly when an insert meets a session of its label
  (`AcpRegistry.LabelsAreUniqueWhen`).
- Merging is described as idempotent (`crates/openxgram-cli/src/daemon_peer_sync.rs:77`), but where identities are
  paired two ways pulling the same list again can add a row (`Gossip.PullIsNotAlwaysIdempotent`).
  `Gossip.PullRepeatsWhen` says exactly when it changes nothing, `Gossip.PullIsIdempotent` what can be checked before
  the first pull.
- Where rows may not be created, the guard looks up the trimmed Ethereum address and the update the one announced
  (`crates/openxgram-cli/src/daemon_peer_sync.rs:113-121`), so an untrimmed one can still create a row:
  `Merging.UntrimmedAddressIsCreated`, and exactly when `Merging.MergeWithoutCreation`.
- Agent-add messages are recognised by an exact prefix of the body where they are consumed and by a prefix of the
  trimmed body where injection is decided, so one behind white space is delivered as conversation:
  `Delivery.SpacedAgentAddIsDelivered`.
- An undelivered message is acknowledged as `inbox_stored`, which the sender counts as an answer of its
  conversation: `Delivery.AckFollowsStore`.

## Model

| member | source | states |
|---|---|---|
| Json.StringRoundTrip | crates/openxgram-anp/src/message.rs:153-171 | Every string, escaped per section 7 of RFC 8259, parses back to itself with any text after it |
| JsonText.PlainTextStays | crates/openxgram-anp/src/message.rs:153-171 | A text without quotes, backslashes and control characters is printed as it is, between quotes |
| JsonText.EscapedWhen | crates/openxgram-anp/src/message.rs:153-171 | Which characters are escaped, by how many characters, and that no capitals are used |
| Json.ValueRoundTrip | crates/openxgram-anp/src/message.rs:124-127 | Every value parses back from its compact text, at any depth, leaving the text after it |
| Json.RoundTrip | crates/openxgram-anp/src/message.rs:119-127 | Printing then parsing returns the same value |
| JsonText.IntTextIsPlain | crates/openxgram-anp/src/message.rs:119-127 | Integers are written without leading zeros and with a minus exactly below zero |
| JsonText.FloatTexts | crates/openxgram-anp/src/message.rs:124-127 | Digits with a point, an exponent of either sign, or both, with or without a minus, are floating-point numbers |
| JsonText.OtherEscapesRead | crates/openxgram-anp/src/message.rs:124-127 | The parser also reads an escaped slash and any character below the surrogates by four hexadecimal digits of either case |
| Json.PrintEnds | crates/openxgram-acp/src/transport.rs:187-196 | A printed value starts and ends with characters that are never white space, so it is not blank |
| Json.PrintHasNoControl | crates/openxgram-acp/src/transport.rs:180-203 | No printed value contains a control character, so none contains a raw newline |
| Canonical.LessIsTotal | crates/openxgram-anp/src/message.rs:159-160 | String order is total, so sorting by key leaves no two keys unordered |
| Canonical.SortKeepsMeaning | crates/openxgram-anp/src/message.rs:155-170 | Sorting keys at every depth keeps the value a reader by key sees |
| Canonical.SortOrders | crates/openxgram-anp/src/message.rs:155-170 | The sorted value has strictly increasing keys at every depth |
| Canonical.OrderedIsUnique | crates/openxgram-anp/src/message.rs:155-170 | Two ordered values with the same meaning are the same value |
| Canonical.CanonicalTextIdentifies | crates/openxgram-anp/src/message.rs:154-171 | Two bodies have the same canonical text if and only if they are the same value up to key order at every depth |
| Canonical.CanonicalTextIsStable | crates/openxgram-anp/src/message.rs:154-171 | Canonicalising the canonical text again changes nothing |
| Canonical.TamperedBodyHasAnotherText | crates/openxgram-anp/src/message.rs:82-88 | A body with another meaning has another canonical text, so another digest input |
| Anp.TextRoundTrip | crates/openxgram-anp/src/message.rs:119-127 | An envelope survives its JSON text |
| AnpText.HeaderText | crates/openxgram-anp/src/message.rs:38-52 | The text of a header, member by member: the names, their order, and no signature member when there is none |
| AnpText.EnvelopeText | crates/openxgram-anp/src/message.rs:54-58 | The text of an envelope: header and body under their names |
| AnpText.CompactForm | crates/openxgram-anp/src/message.rs:119-127 | The literals, and how arrays and objects are put together, without white space |
| Anp.Message.Sign | crates/openxgram-anp/src/message.rs:91-95 | Signing fills only the signature, over the digest of the body |
| Anp.SignatureCoversMeaning | crates/openxgram-anp/src/message.rs:82-117 | A signature verifies for every body of the same meaning and, when the digest is injective, for no other |
| Framing.ForwardLine | crates/openxgram-acp/src/transport.rs:214-231 | One line: blank is skipped, a value is forwarded, anything else is forwarded as an error, and reading goes on |
| Framing.SpawnReader | crates/openxgram-acp/src/transport.rs:210-235 | The reader forwards, in order, the items of the text up to end of file or failure, the failure as the last, and stops at the first item its receiver does not take |
| Framing.SpawnWriter | crates/openxgram-acp/src/transport.rs:180-203 | The writer writes each value on its own line, in order, and stops at the first write or flush that fails, which may cut its line short |
| Framing.NoNewlineInside | crates/openxgram-acp/src/transport.rs:187-190 | A written line holds one newline, its last character |
| Framing.StreamRoundTrip | crates/openxgram-acp/src/transport.rs:180-235 | Any sequence of values, with any white space around the lines and blank lines between, is read back as the same sequence |
| Framing.WriterReaderRoundTrip | crates/openxgram-acp/src/transport.rs:180-235 | What the writer writes, the reader reads back |
| Framing.InterruptedRoundTrip | crates/openxgram-acp/src/transport.rs:180-235 | However the writer fails, the reader gets the values written whole, in order; a value cut short adds nothing when the stream fails too and at most one item otherwise |
| Rpc.RpcPeer.AllocateId | crates/openxgram-acp/src/rpc.rs:101-104 | A fresh id, one above the last |
| Rpc.RpcPeer.InsertPending | crates/openxgram-acp/src/rpc.rs:104-108 | The caller waits under its id; other waiters stay |
| Rpc.RpcPeer.RemovePending | crates/openxgram-acp/src/rpc.rs:109-120 | A request that could not be sent stops waiting |
| Rpc.RpcPeer.RegisterListener | crates/openxgram-acp/src/rpc.rs:89-94 | A session gets a new empty channel; others are unchanged |
| Rpc.RpcPeer.DropListener | crates/openxgram-acp/src/rpc.rs:96-98 | The session loses its channel |
| Rpc.RpcPeer.DispatchResponse | crates/openxgram-acp/src/rpc.rs:186-215 | A response removes its waiter and gives it the frame's outcome, which Rpc.ReplyReachesWaiter and Rpc.ErrorReachesWaiter spell out; a response without a waiter changes nothing |
| Rpc.RpcPeer.DispatchNotification | crates/openxgram-acp/src/rpc.rs:217-238 | An update goes to the end of its session's channel, if there is one |
| Rpc.RpcPeer.RouteFrame | crates/openxgram-acp/src/rpc.rs:162-184 | A frame is a request, a notification or a response by which of method and id it has |
| Rpc.RpcPeer.RunDispatch | crates/openxgram-acp/src/rpc.rs:137-160 | The loop handles the frames before the first error, in order, and then fails every waiter |
| Rpc.StepKeepsInv | crates/openxgram-acp/src/rpc.rs:101-215 | Every interleaved step of callers, loop and agent keeps the waiting map, the wire and the answers consistent |
| Rpc.RunKeepsInv | crates/openxgram-acp/src/rpc.rs:101-215 | So does every run |
| Rpc.EveryAnswerFindsItsWaiter | crates/openxgram-acp/src/rpc.rs:101-215 | In every run, an answer on the wire from an agent that answers each id once has a waiter, or its caller gave up |
| Rpc.ResolvedAtMostOnce | crates/openxgram-acp/src/rpc.rs:186-215 | No id is resolved twice |
| Rpc.CallerHearsItsOwnAnswer | crates/openxgram-acp/src/rpc.rs:186-215 | A caller's outcome is that of a frame the agent sent with the caller's id, or agent exit |
| Rpc.ReplyReachesWaiter | crates/openxgram-acp/src/rpc.rs:186-215 | Dispatching the JSON-RPC reply for a result, an error with a 64-bit code and a message, or neither, to a pending id puts exactly that result, that error or an invalid response on its oneshot, and changes nothing else |
| Rpc.ErrorReachesWaiter | crates/openxgram-acp/src/rpc.rs:199-206 | With an error member, whatever else there is, the waiter hears its code and message; a code that is no 64-bit integer reads as 0 and a message that is no string as <no message> |
| Rpc.BareErrorReachesWaiter | crates/openxgram-acp/src/rpc.rs:199-206 | An error member that is no object, such as null, is an error with both defaults |
| Rpc.StrayResponseIsIgnored | crates/openxgram-acp/src/rpc.rs:186-198 | A response with an id nobody waits for, or no 64-bit id, changes nothing |
| Rpc.UpdateReachesChannel | crates/openxgram-acp/src/rpc.rs:217-238 | A session/update goes with its whole parameters to the channel of the session it names, if that is registered, and nowhere else |
| Rpc.NamelessUpdateGoesToEmptyName | crates/openxgram-acp/src/rpc.rs:222-238 | An update that names no session counts as one for the empty name, with null for missing parameters |
| Rpc.AgentRequestReachesHandlers | crates/openxgram-acp/src/rpc.rs:162-184 | A call with an id that is not null goes to the handlers, whatever its method |
| Rpc.CallerHearsTheReply | crates/openxgram-acp/src/rpc.rs:101-215 | In every run: if the agent answers an id by the reply for an outcome, a caller that returns with anything but agent exit returns that outcome |
| Rpc.ReplyRun | crates/openxgram-acp/src/rpc.rs:101-215 | For every outcome there is a run in which the first caller returns it |
| Rpc.ClosedWriterRun | crates/openxgram-acp/src/rpc.rs:109-120 | There is a run in which the writer has closed and the first caller returns agent exit with nothing pending |
| Rpc.DrainFailsEveryPending | crates/openxgram-acp/src/rpc.rs:152-159 | When the loop ends, exactly the ids then pending get agent exit and the map is empty |
| Rpc.NothingHeardAfterTheEnd | crates/openxgram-acp/src/rpc.rs:152-160 | After the drain no caller hears anything more |
| Rpc.LateRequestNeverReturns | crates/openxgram-acp/src/rpc.rs:101-122 | After the loop ended, a written request can return if and only if it is no longer pending; one registered after the drain is still pending and never returns, whatever follows |
| Rpc.LateRequestExample | crates/openxgram-acp/src/rpc.rs:101-122 | A concrete run that reaches that state |
| Rpc.BadLineEndsDispatch | crates/openxgram-acp/src/rpc.rs:145-151 | One line that does not parse ends the loop although the reader reads on |
| Session.LiveMatchesCollected | crates/openxgram-acp/src/session.rs:23-49 | The updates forwarded live are the bodies of the updates collected, one for one |
| Session.TakeUpdate | crates/openxgram-acp/src/session.rs:151-181 | Taking one update off the channel forwards and collects it if it decodes and drops it otherwise |
| Session.PromptStreaming | crates/openxgram-acp/src/session.rs:118-186 | However the select interleaves, a finished turn collected the decodable part of a prefix of the session's stream, in order and once, with everything routed before the answer in it, forwarded the same live, and heard its own answer; a failed turn heard an error or the agent is gone, an unparseable one heard a result without a stop reason; and a turn that still runs has had, since it could pick its answer, no more polls than there are updates |
| Session.WholeTurn | crates/openxgram-acp/src/session.rs:118-186 | When the agent emits updates for any sessions and then replies, a finished turn has forwarded exactly the decodable updates of its own session, in order, collected what they decode to, and reports the stop reason of the result; a failed one reports the reply's error or agent exit |
| Session.StopReasonsAre | crates/openxgram-acp/src/types.rs:346-359 | A prompt's result is understood exactly when its stop reason is one of the five texts, and is then that text |
| Session.StreamIsMeant | crates/openxgram-acp/src/session.rs:23-49 | What a session's channel decodes to is what the agent put in its updates for that session |
| Session.FlatUpdateIsBody | crates/openxgram-acp/src/session.rs:23-27 | Parameters without an update member are themselves the body |
| Session.DispatchFillsChannel | crates/openxgram-acp/src/rpc.rs:217-238 | What dispatch puts on a session's channel is the session's updates among the frames, in order |
| Session.DispatchAnswersFirst | crates/openxgram-acp/src/rpc.rs:186-215 | The answer a turn hears is the first response with its id |
| Outbound.Worker.BeginTickUnderLock | crates/openxgram-cli/src/daemon_workers.rs:1472-1580 | The three clean-up statements and the two selections, as one step of the queue; which rows are due when is Retransmission.RetransmittedWhen and Retransmission.FirstPostWhen |
| Outbound.Worker.RecordPost | crates/openxgram-cli/src/daemon_workers.rs:1632-1669 | The update after a post: success and failure of a first post and of a retransmission |
| Outbound.Worker.Drain | crates/openxgram-cli/src/daemon_workers.rs:1465-1672 | A whole tick, with any inbound changes between its statements, is a run of the queue |
| Outbound.CapNeverBinds | crates/openxgram-cli/src/daemon_workers.rs:1655 | The back-off is 2 to the power of the attempts, at most 256 seconds, so its 300-second cap never applies |
| Outbound.ElevenPostsTake767Seconds | crates/openxgram-cli/src/daemon_workers.rs:1655-1656 | Ten back-offs sum to 767 seconds |
| Outbound.EventKeepsInv | crates/openxgram-cli/src/daemon_workers.rs:1465-1672 | Every event keeps: attempts are the failed first posts and the successful retransmissions, an unsent row waits out its back-off, and selected rows are still as selected |
| Outbound.RunKeepsInv | crates/openxgram-cli/src/daemon_workers.rs:1465-1672 | So does every run, with inbound envelopes and sweeps in between |
| Outbound.PostsAreBounded | crates/openxgram-cli/src/daemon_workers.rs:1505-1547 | In every run a row has at most eleven failed first posts, and its successful posts are at most one and what three attempts leave after the failed ones, so at most four |
| Outbound.FirstPostsAreSpaced | crates/openxgram-cli/src/daemon_workers.rs:1650-1661 | In every run first post number k starts at least the sum of k back-offs after the first; the eleventh 767 seconds |
| Outbound.OnlyOldAcknowledgedRowsLeave | crates/openxgram-cli/src/daemon_workers.rs:1485-1489 | A row leaves if and only if a tick finds it sent, acknowledged and sent over thirty days ago |
| Outbound.SettledStaysSilent | crates/openxgram-cli/src/daemon_workers.rs:1505-1547 | Once sent and acknowledged and not under way, a row is never posted again in any run |
| Outbound.AckDoesNotStopFirstPosts | crates/openxgram-cli/src/daemon_workers.rs:1505-1513 | An ACK that arrives while the row counts as unsent does not stop its first posts |
| Retransmission.RetransmissionsWait | crates/openxgram-cli/src/daemon_workers.rs:1532-1547 | In every run a retransmission starts at least 30 seconds, 5 minutes or 30 minutes after the end of the last successful post, after no, one or two tries, and there is none after three |
| Retransmission.RetransmittedWhen | crates/openxgram-cli/src/daemon_workers.rs:1532-1547 | In every reachable idle state a row can be selected for retransmission if and only if it was sent, is not acknowledged and has been silent that long; times written out, read off the posts made of it |
| Retransmission.FirstPostWhen | crates/openxgram-cli/src/daemon_workers.rs:1505-1513 | In every reachable idle state a row can be selected for a first post if and only if it was never sent, failed at most ten times, and has waited 1, 2, 4 and so on seconds, at most 256, since its last failure |
| Retransmission.TickTakes | crates/openxgram-cli/src/daemon_workers.rs:1505-1547 | A tick takes at most twenty of each, and any that are due |
| Retransmission.TickMarks | crates/openxgram-cli/src/daemon_workers.rs:1489-1504 | Exactly which rows the clean-up marks as given up or timed out, and that it changes nothing else of a row that stays |
| Retransmission.PostWrites | crates/openxgram-cli/src/daemon_workers.rs:1632-1669 | What the end of a post writes into its row in each of the four cases, and that no other row changes |
| Retransmission.AckEndsRetransmission | crates/openxgram-cli/src/daemon.rs:1015-1045 | An acknowledgement is recorded on its own row only, with status and time, and whatever follows that row is never selected for retransmission again |
| AppAck.AppStatusAdvances | crates/openxgram-cli/src/daemon.rs:1046-1092 | The exact effect of any event on a row's application ACK: blocked only by the sweep when overdue, processed only by the envelope that picks it as the latest unanswered row, processed is final |
| AppAck.EnvelopeFlipsOneRow | crates/openxgram-cli/src/daemon.rs:1319-1354 | An envelope flips one row of its conversation if any is unanswered and no row otherwise |
| AppAck.ProcessedNeedEnvelopes | crates/openxgram-cli/src/daemon_workers.rs:967-1017 | In every run the processed rows of a conversation are at most the envelopes received for it |
| Address.HostIgnoresCase | crates/openxgram-cli/src/daemon_peer_sync.rs:189-199 | The host of a URL in lower case is the host in lower case |
| Address.SameAddressSameHost | crates/openxgram-cli/src/daemon_peer_sync.rs:510-530 | Well-formed addresses equal up to trailing slashes and case are on the same host |
| Urls.HostOfUrl | crates/openxgram-cli/src/daemon_peer_sync.rs:189-199 | The host of a URL is its host, whatever scheme, port and path stand around it, and without any of them |
| Urls.GuiOfUrl | crates/openxgram-cli/src/daemon_peer_sync.rs:180-185 | The GUI of a transport URL without a path is the same URL two ports up, modulo 65536 |
| Urls.EqualUpToCase | crates/openxgram-cli/src/daemon_peer_sync.rs:510-530 | Equality up to case: the same length, and each pair of characters equal or a letter and its capital |
| Urls.PullClearsHost | crates/openxgram-cli/src/daemon_peer_sync.rs:699-764 | After a pull from one port of a host, every row at any port of that host with an identity is named by the list in some spelling or is the own one |
| Urls.PullPrunesByHost | crates/openxgram-cli/src/daemon_peer_sync.rs:699-764 | A row the list names in no spelling, not the own one, leaves with a pull from any port of its host, and stays as it is with a pull from any other host |
| Urls.CandidateWhen | crates/openxgram-cli/src/daemon_peer_sync.rs:295-302 | A URL without white space around it is a pull candidate if and only if it can be reached from elsewhere and is not at the own host, whatever the ports |
| Urls.LoopbackIsNotStored | crates/openxgram-cli/src/daemon_peer_sync.rs:95-108 | An announcement at a loopback, wildcard or unknown address is never stored |
| Gossip.Registry.MergeAnnounced | crates/openxgram-cli/src/daemon_peer_sync.rs:95-175 | One announcement through filters, upsert and field updates, as one function of the table |
| Gossip.Registry.MergeRemotePeers | crates/openxgram-cli/src/daemon_peer_sync.rs:87-177 | The loop over a list of announcements |
| Gossip.Registry.PruneAbsentFromRemote | crates/openxgram-cli/src/daemon_peer_sync.rs:708-764 | Deletes exactly the rows of the base's host that are not advertised and not the own one |
| Gossip.Registry.SelectAbsent | crates/openxgram-cli/src/daemon_peer_sync.rs:726-750 | The deletion list is exactly those rows |
| Gossip.Registry.SyncTickOnce | crates/openxgram-cli/src/daemon_peer_sync.rs:640-698 | A tick prunes and merges each successful fetch in order and skips failed ones |
| Gossip.MergeOneRows | crates/openxgram-peer/src/lib.rs:138-216 | One accepted announcement updates the rows of its Ethereum address, else of its public key, else adds one row if the alias is free; nothing else changes |
| Gossip.PullLeavesOnlyAdvertised | crates/openxgram-cli/src/daemon_peer_sync.rs:666-764 | After a pull, every row on the base's host other than the own one was just advertised |
| Gossip.PullKeepsUnannounced | crates/openxgram-cli/src/daemon_peer_sync.rs:699-764 | A row no announcement names stays, unchanged, if and only if it is not on the base's host, or has no identity, or is the own one, or is still advertised |
| Gossip.PullKeepsOwnRow | crates/openxgram-cli/src/daemon_peer_sync.rs:104-108 | The own row survives every pull unchanged unless the list bears its public key under another Ethereum address |
| Gossip.OwnRowChangesOnlyByKey | crates/openxgram-cli/src/daemon_peer_sync.rs:104-145 | The exact condition under which one announcement changes the own row |
| Gossip.MergeOneConsistent | crates/openxgram-peer/src/lib.rs:138-216 | With consistent identities an announcement is about the one row of its public key |
| Gossip.MergeChangesNothingWhen | crates/openxgram-cli/src/daemon_peer_sync.rs:87-177 | For any table and any list whose accepted announcements have different public keys, merging changes nothing if and only if each accepted announcement meets a row of its Ethereum address, or no row of its key while its alias is taken, and each row already shows all announcements of its Ethereum address in order |
| Gossip.PullRepeatsWhen | crates/openxgram-cli/src/daemon_peer_sync.rs:666-689 | With different public keys among the accepted announcements, a second pull of a list changes nothing if and only if that condition holds of the table after the first; when their Ethereum addresses differ too its second half always holds |
| Gossip.PullIsIdempotent | crates/openxgram-cli/src/daemon_peer_sync.rs:666-689 | Repeating a pull changes nothing, provided that before it no accepted announcement meets a row of its Ethereum address with another public key, and no two of them share a key or an Ethereum address |
| Gossip.RepeatedPullAddsRow | crates/openxgram-cli/src/daemon_peer_sync.rs:666-689 | Without that proviso it can: a row that bears the Ethereum address of one announcement and the key of the next is moved by the first pull, and the second pull adds a row |
| Gossip.PullIsNotAlwaysIdempotent | crates/openxgram-cli/src/daemon_peer_sync.rs:666-689 | A concrete table and list of that kind |
| Gossip.ConsistentListFits | crates/openxgram-cli/src/daemon_peer_sync.rs:87-177 | The proviso holds whenever Ethereum addresses are derived from public keys, in table and list |
| Gossip.PullAdopts | crates/openxgram-cli/src/daemon_peer_sync.rs:138-170 | Under the same proviso, after a pull each accepted announcement is shown by its row on every field it sets, unless another identity holds its alias |
| Gossip.MergedRowsShow | crates/openxgram-cli/src/daemon_peer_sync.rs:138-170 | Without it, for any table: when no two accepted announcements share a key or an Ethereum address, every row that bears the Ethereum address of one after the merge shows all it sets |
| Merging.CountedWhen | crates/openxgram-cli/src/daemon_peer_sync.rs:138-145 | An accepted announcement is counted as merged if and only if the table then has its Ethereum address; one that is not counted changes nothing |
| Merging.TakenCounts | crates/openxgram-cli/src/daemon_peer_sync.rs:87-177 | The reported number of merged announcements is how many are counted, each in the table the earlier ones left |
| Merging.MergeWithoutCreation | crates/openxgram-cli/src/daemon_peer_sync.rs:109-121 | Without creation an announcement is dropped unless its trimmed Ethereum address or alias is in the table; a row is then still created if and only if the table has the address only in its trimmed spelling, and neither key nor alias |
| Merging.UntrimmedAddressIsCreated | crates/openxgram-cli/src/daemon_peer_sync.rs:109-121 | A concrete announcement of that kind |
| Merging.AdvertisedWhen | crates/openxgram-cli/src/daemon_peer_sync.rs:456-558 | Exactly which rows are advertised, homed here or not |
| Merging.AdvertisedAs | crates/openxgram-cli/src/daemon_peer_sync.rs:534-558 | What is advertised of a row: its non-empty fields, whose address, and the GUI of the address advertised |
| Merging.PiecesAre | crates/openxgram-cli/src/daemon_peer_sync.rs:286-291 | The URLs of the environment are the pieces between commas, spaces, tabs and line ends |
| Gossip.RemoteHomedAdvertisedWhen | crates/openxgram-cli/src/daemon_peer_sync.rs:456-558 | Exactly when a row homed elsewhere is advertised |
| Gossip.RemoteHomedNotAdvertised | crates/openxgram-cli/src/daemon_peer_sync.rs:456-558 | With a known well-formed own address and no terminal name collision, never |
| Gossip.AdvertisedDistinct | crates/openxgram-cli/src/daemon_peer_sync.rs:456-558 | Distinct rows are advertised under distinct public keys |
| Gossip.PositionsAreFirstOccurrences | crates/openxgram-cli/src/daemon_peer_sync.rs:281-312 | The chosen pull candidates are exactly the first occurrences, in order |
| Gossip.EachKeyHasOnePosition | crates/openxgram-cli/src/daemon_peer_sync.rs:303-311 | Every admissible URL shares its normal form with exactly one candidate |
| Gossip.CombinePullCandidates | crates/openxgram-cli/src/daemon_peer_sync.rs:281-312 | The candidate list is the distinct admissible URLs of table and environment, where each first occurs |
| Gossip.IsCandidate | crates/openxgram-cli/src/daemon_peer_sync.rs:295-302 | A URL is admissible when it is not empty, reachable from elsewhere and not on the own host |
| Fleet.FleetsExist | crates/openxgram-cli/src/daemon_peer_sync.rs:87-177 | The assumptions about fleets can be met, with any two keys at home on two machines |
| Fleet.StepKeepsInv | crates/openxgram-cli/src/daemon_peer_sync.rs:87-177 | Every step of any number of machines keeps identities consistent, rows on their home's host, and every field known from its home |
| Fleet.FieldsComeFromHome | crates/openxgram-cli/src/daemon_peer_sync.rs:138-170 | In every run every role, display name and session field of any row was set at the identity's home by an earlier step, and the row's address is on its home's host |
| Fleet.HomeRowsAreOwn | crates/openxgram-cli/src/daemon_peer_sync.rs:456-558 | In every run without terminal name collisions, rows at their home change only by the home's own edits, whatever old lists are pulled |
| Fleet.OnePullConverges | crates/openxgram-cli/src/daemon_peer_sync.rs:640-698 | One pull from a quiet home makes the puller's row agree with the home's on every field the home has set, unless the alias is another identity's |
| Wallets.Bank.DebitForPurchase | crates/openxgram-cli/src/daemon_gui_wallets.rs:201-261 | A purchase needs a positive amount, an active wallet and the balance; it changes the wallet and the ledger together, and a refused or rolled-back one changes nothing |
| Wallets.Bank.CreditEarning | crates/openxgram-cli/src/daemon_gui_wallets.rs:265-298 | An earning needs a positive amount and a wallet, whatever its status |
| Wallets.Bank.TopupWallet | crates/openxgram-cli/src/daemon_gui_wallets.rs:466-489 | A top-up always takes from the master and writes the ledger; it reports a missing wallet only afterwards |
| Wallets.Bank.CreateSubWallet | crates/openxgram-cli/src/daemon_gui_wallets.rs:378-424 | Creation refuses an occupied index, a known agent and a used address, and occupies its index for good |
| Wallets.Bank.AutoTopupTick | crates/openxgram-cli/src/daemon_workers.rs:1305-1355 | A tick resets the rows of another day and grants, row by row, from what it read first |
| Wallets.Bank.ListLedger | crates/openxgram-cli/src/daemon_gui_wallets.rs:124-180 | The newest entries up to the clamped limit, and totals over all entries |
| Wallets.LedgerMatchesWallets | crates/openxgram-cli/src/daemon_gui_wallets.rs:201-298 | In every run earned is the ledger's earnings, and spent is the ledger's purchases if and only if the charges that skip the ledger sum to zero |
| Wallets.OverdrawnOnlyBy | crates/openxgram-cli/src/daemon_gui.rs:12604-12616 | From a solvent wallet one operation overdraws it if and only if it is an unchecked charge, or a top-up by a negative amount, for more than the balance it meets |
| Wallets.BalancesAndLimits | crates/openxgram-cli/src/daemon_workers.rs:1305-1355 | With limits that are not negative, over any run, each wallet's consumption stays within its daily maximum, and its balance is never negative if and only if no unchecked charge and no negative top-up exceeds the balance it meets |
| Wallets.ChargeOverdraws | crates/openxgram-cli/src/daemon_gui.rs:12604-12616 | One charge of a sent message overdraws a new wallet |
| Wallets.DailyGrantsAreBounded | crates/openxgram-cli/src/daemon_workers.rs:1305-1355 | While days do not go back, the grants of one wallet on one day sum to at most its maximum |
| Topups.TickGivesEach | crates/openxgram-cli/src/daemon_workers.rs:1305-1355 | One tick over distinct agents, on the books before and after: an allocation grows if and only if its agent is listed, active, on automatic, below the threshold and not at the day's maximum; by the smaller of the amount and what the day leaves, with consumption and the recorded grant in step; the master pays, and nothing else changes |
| Topups.NoGrantExceedsAmount | crates/openxgram-cli/src/daemon_workers.rs:1335-1345 | In every run no grant exceeds the amount of its wallet's policy |
| Wallets.WealthChangesOnlyBy | crates/openxgram-cli/src/daemon_gui_wallets.rs:466-489 | Every operation keeps free plus allocated, except a top-up without a wallet, which loses exactly its amount |
| Wallets.MoneyIsConserved | crates/openxgram-cli/src/daemon_gui_wallets.rs:466-489 | Over every run whose top-ups find wallets, free plus allocated is what the master began with |
| Wallets.AutomaticIndexIsNeverTaken | crates/openxgram-cli/src/daemon_gui_wallets.rs:382-394 | An automatically chosen index is never occupied |
| Payments.AutomaticIndexIs | crates/openxgram-cli/src/daemon_gui_wallets.rs:382-394 | The automatic index is 0 for the first wallet and otherwise one above the largest ever occupied |
| Wallets.IndexNeverReused | crates/openxgram-cli/src/daemon_gui_wallets.rs:378-424 | In every run no derivation index is occupied twice |
| Wallets.ListedEntriesAddUp | crates/openxgram-cli/src/daemon_gui_wallets.rs:124-180 | Without a cut the listed entries add up to the totals; a larger limit only extends the list |
| Payments.NewestFirst | crates/openxgram-cli/src/daemon_gui_wallets.rs:124-150 | The ledger is listed newest first, and only an agent's own entries when one is named |
| Wallets.TotalsMatchWallets | crates/openxgram-cli/src/daemon_gui_wallets.rs:150-180 | The totals over all agents are the sums over the wallets |
| Ingest.Ingester.TickOnce | crates/openxgram-cli/src/daemon_workers.rs:625-722 | A tick reads from the stored offset, handles the non-empty lines, and advances by each line's length and one |
| Ingest.AdvanceIs | crates/openxgram-cli/src/daemon_workers.rs:663-665 | The advance is the bytes read, less one per two-byte line end, plus one for an unterminated last line |
| Ingest.OffsetIsExactWhen | crates/openxgram-cli/src/daemon_workers.rs:663-722 | The stored offset is the bytes consumed if and only if those two counts are equal |
| Ingest.LinesOfPair | crates/openxgram-cli/src/daemon_workers.rs:663-664 | Lines of a text cut behind a line feed are the lines of both parts |
| Ingest.LineEndsAre | crates/openxgram-cli/src/daemon_workers.rs:663-664 | A line ends with byte 10, alone or behind byte 13; an unterminated last line is a line |
| Ingest.TicksMatchOneRead | crates/openxgram-cli/src/daemon_workers.rs:625-722 | For a log growing by whole lines without carriage returns, any ticks and failed reads handle exactly the lines of one read of the consumed part, in order and once, and the offset is its length |
| Ingest.LastTickCatchesUp | crates/openxgram-cli/src/daemon_workers.rs:625-722 | One successful read after the last growth completes it |
| Ingest.HalfLineIsLost | crates/openxgram-cli/src/daemon_workers.rs:663-665 | A line seen in two parts is never handled whole |
| Timestamps.TextOrderIsTimeOrder | crates/openxgram-core/src/time.rs:7-15 | RFC 3339 texts (section 5.6) at one numeric offset, with any fraction digits, compare exactly as in time; of two spellings of an instant the shorter is first |
| Timestamps.DatesGrow | crates/openxgram-core/src/time.rs:7-15 | A later calendar date has a larger day number, leap years included |
| Timestamps.LessOfDigits | crates/openxgram-core/src/time.rs:7-15 | Digit strings before an offset compare as fractions |
| Timestamps.ZuluSortsFractionsFirst | crates/openxgram-core/src/time.rs:7-15 | With the suffix Z the order fails: a fraction sorts before its whole second |
| Calendar.YearsAre | crates/openxgram-core/src/time.rs:7-15 | The days before a year: 365 each, one more for every fourth, one less for every hundredth and one more for every four-hundredth |
| Calendar.MonthsAre | crates/openxgram-core/src/time.rs:7-15 | The lengths of the months, and that they add up to the year |
| Calendar.SecondsAre | crates/openxgram-core/src/time.rs:7-15 | Times differ by 86400 seconds a day, 3600 an hour, 60 a minute and one a second |
| Calendar.TextReadsBack | crates/openxgram-core/src/time.rs:7-15 | The text of a timestamp read back field by field, with the fraction and the offset behind them |
| Polling.HandleUnread | crates/openxgram-cli/src/agent.rs:441-571 | The loop over one session handles the messages later than the watermark until one fails |
| Polling.Poller.PollOne | crates/openxgram-cli/src/agent.rs:429-575 | One session: the watermark moves only when no message failed |
| Polling.Poller.PollOnce | crates/openxgram-cli/src/agent.rs:400-578 | The sessions in order, up to the first failure |
| Polling.UnreadOfList | crates/openxgram-cli/src/agent.rs:444-448 | With increasing timestamps the unread messages are exactly those behind the watermark's position |
| Polling.PollsHandleExactlyOnce | crates/openxgram-cli/src/agent.rs:400-578 | In every error-free run each session's messages are handled exactly once and in order |
| Polling.PollsHandleAtLeastOnce | crates/openxgram-cli/src/agent.rs:118-215 | Whatever polls fail midway, whatever saves fail and whenever the agent restarts, watermarks cover only handled messages and a complete poll has handled every message at least once |
| Polling.FailedPollRepeats | crates/openxgram-cli/src/agent.rs:571-575 | What a failed poll handled is handled again by the next complete one |
| PollingState.SavedWhen | crates/openxgram-cli/src/agent.rs:118-215 | A turn of the loop writes the state file exactly when the write succeeds and another poller had work or this one found new messages and handled them all; a restart goes back to what was written |
| PollingState.RestartIsHarmless | crates/openxgram-cli/src/agent.rs:118-215 | While polls complete and writes succeed, a restart changes nothing |
| Polling.EqualTimestampIsSkipped | crates/openxgram-cli/src/agent.rs:445-448 | A message is taken up if and only if its time is later than the watermark's, or the same and written with more fraction digits |
| Singleton.DataDir.Acquire | crates/openxgram-cli/src/daemon_singleton.rs:66-141 | An uninterrupted acquire: exactly when it succeeds, what it leaves and what it reports |
| Singleton.DataDir.Drop | crates/openxgram-cli/src/daemon_singleton.rs:144-154 | Dropping the guard removes the pid file and frees the lock |
| Singleton.StepKeepsInv | crates/openxgram-cli/src/daemon_singleton.rs:66-154 | Every file or process step keeps the lock, the phases and the pid file consistent |
| Singleton.AtMostOneRuns | crates/openxgram-cli/src/daemon_singleton.rs:82-127 | In every run at most one process is past acquire, and the pid file names it |
| Singleton.OnlyHolderChangesFile | crates/openxgram-cli/src/daemon_singleton.rs:119-154 | Only the lock holder writes or removes the pid file |
| Singleton.StartSucceedsWhen | crates/openxgram-cli/src/daemon_singleton.rs:82-127 | An uninterrupted start succeeds if and only if the lock is free and the file names no other live process |
| Singleton.CrashFreesTheDirectory | crates/openxgram-cli/src/daemon_singleton.rs:11-12 | After the holder crashes no process live at that moment is blocked |
| Singleton.BlockedOnlyByReusedPid | crates/openxgram-cli/src/daemon_singleton.rs:106-118 | With the lock free, a start is blocked exactly when the file's pid is that of its ended writer, still alive, or was given to another process |
| Ports.BlocksAreDisjoint | crates/openxgram-cli/src/bot.rs:209-222 | The bots' four-port blocks are pairwise disjoint |
| Ports.NoFreeBlockMeansFull | crates/openxgram-cli/src/bot.rs:223-236 | No block is free if and only if 150 bots are registered, and there are never more |
| Ports.LeastBlockIsAccepted | crates/openxgram-cli/src/bot.rs:65-81 | A bot of a new name on a free block passes the registry's own checks |
| Ports.BotRegistry.Add | crates/openxgram-cli/src/bot.rs:65-81 | Adding fails exactly on a taken name or a port conflict, and otherwise appends |
| Ports.BotRegistry.Remove | crates/openxgram-cli/src/bot.rs:82-90 | Removes the first bot of the name and nothing else |
| Ports.BotRegistry.AllocatePorts | crates/openxgram-cli/src/bot.rs:208-236 | The least free block, or none exactly when every block has a used port |
| Ports.BotRegistry.BotAdd | crates/openxgram-cli/src/bot.rs:94-132 | The whole command: which error in which case, and the least free block on success |
| Ports.BotRegistry.BotRemove | crates/openxgram-cli/src/bot.rs:268-284 | Removing frees the bot's block; a running bot needs force |
| Ports.RunCommands | crates/openxgram-cli/src/bot.rs:94-284 | Any commands from an empty registry do what each of them does, in order, and leave pairwise disjoint blocks |
| Ports.LeastFreeIs | crates/openxgram-cli/src/bot.rs:209-236 | The block a new bot gets starts at the lowest of 47300, 47304 and so on with no port of any bot within it |
| Ports.ConflictWhen | crates/openxgram-cli/src/bot.rs:65-81 | An entry is accepted if and only if it shares no port with a bot; the first bot it clashes with decides the error |
| AcpRegistry.MarkersDiffer | crates/openxgram-cli/src/daemon_gui_acp.rs:328-333 | Markers of different session ids differ |
| AcpRegistry.AcpHttpState.FindOrStartCreate | crates/openxgram-cli/src/daemon_gui_acp.rs:651-690 | The locked search of a create: reuse, or forget a session whose agent is dead |
| AcpRegistry.AcpHttpState.ResolveForPrompt | crates/openxgram-cli/src/daemon_gui_acp.rs:788-829 | The locked section of a prompt starts the agent only if the session has none |
| AcpRegistry.AcpHttpState.RemoveSession | crates/openxgram-cli/src/daemon_gui_acp.rs:1009-1016 | The locked section of a close takes the session out |
| AcpRegistry.AcpHttpState.BridgeSessionAsPeer | crates/openxgram-cli/src/daemon_gui_acp.rs:192-266 | Bridging sets the marker of a row that is not homed elsewhere |
| AcpRegistry.AcpHttpState.UnbridgeSessionPeer | crates/openxgram-cli/src/daemon_gui_acp.rs:277-302 | Unbridging clears the marker only if it is the session's own |
| AcpRegistry.StepKeepsInv | crates/openxgram-cli/src/daemon_gui_acp.rs:192-390 | Every step of concurrent requests keeps ids, spawns and agents unique |
| AcpRegistry.SessionsAndAgentsAreUnique | crates/openxgram-cli/src/daemon_gui_acp.rs:328-333 | In every interleaving no id is entered twice, each session's agent is started at most once, no agent is shared, none is closed twice |
| AcpRegistry.MarkerLostOnlyBy | crates/openxgram-cli/src/daemon_gui_acp.rs:277-302 | A session's marker is lost if and only if that session is unbridged or another of the alias is bridged over it |
| AcpRegistry.CreateReusesWhen | crates/openxgram-cli/src/daemon_gui_acp.rs:651-690 | A create finds a session of its label when there is one; it reuses it, changing nothing, if and only if that has no agent yet or a live one, and forgets one with a dead agent |
| SessionLife.LiveAgentsAreOurs | crates/openxgram-cli/src/daemon_gui_acp.rs:328-390 | In every interleaving a live agent was started for a session here and is not closed |
| SessionLife.BridgingMarks | crates/openxgram-cli/src/daemon_gui_acp.rs:192-266 | Bridging marks the row the label names, up to white space, with acp:acp- and the session's number, unless it is homed elsewhere; a blank label marks nothing |
| SessionLife.UnbridgingClears | crates/openxgram-cli/src/daemon_gui_acp.rs:277-302 | Closing takes back exactly the session's own marker |
| SessionLife.CreateRun | crates/openxgram-cli/src/daemon_gui_acp.rs:651-730 | A create run by itself enters one session with the next number and the next agent, live, and marks its row |
| SessionLife.CloseRun | crates/openxgram-cli/src/daemon_gui_acp.rs:1009-1029 | A close run by itself removes the session, its marker and its agent |
| AcpRegistry.LabelBrokenOnlyBy | crates/openxgram-cli/src/daemon_gui_acp.rs:651-716 | A step from a state with one session per label keeps that if and only if it does not enter a session whose label is already there |
| AcpRegistry.LabelsAreUniqueWhen | crates/openxgram-cli/src/daemon_gui_acp.rs:651-716 | In every interleaving, every state has one session per label if and only if no insert meets a session of its label |
| AcpRegistry.SerialCreatesKeepLabels | crates/openxgram-cli/src/daemon_gui_acp.rs:651-716 | When no create of a label starts while another is under way, no insert meets a session of its label |
| AcpRegistry.SerialRunHasOneSessionPerLabel | crates/openxgram-cli/src/daemon_gui_acp.rs:651-716 | So a run of such creates has one session per label throughout |
| AcpRegistry.OverlappingCreatesDuplicate | crates/openxgram-cli/src/daemon_gui_acp.rs:651-716 | Two overlapping creates of any label leave two sessions of it |
| Delivery.SpawnLimiter.RecentlyAttempted | crates/openxgram-cli/src/daemon.rs:759-776 | Limited if and only if an attempt for the alias is younger than the window; attempts for one alias stay a window apart |
| Delivery.Daemon.ProcessAck | crates/openxgram-cli/src/daemon.rs:1005-1088 | An ACK envelope records itself and answers its conversation when it reports a delivery |
| Delivery.Daemon.Deliver | crates/openxgram-cli/src/daemon.rs:1515-1853 | The delivery of a stored message, flag by flag, does the effects of its route |
| Delivery.Daemon.ProcessStored | crates/openxgram-cli/src/daemon.rs:1477-1950 | Delivery and then the acknowledgement, whose status BatchLog.AcksTellWhatHappened ties to what happened |
| Delivery.Daemon.ProcessInbound | crates/openxgram-cli/src/daemon.rs:1002-1956 | The loop over a batch |
| Delivery.DeliveredExactlyOneWay | crates/openxgram-cli/src/daemon.rs:1764-1856 | A stored conversation with a recipient ends in exactly its route, and nothing else ends in any |
| Delivery.AckFollowsStore | crates/openxgram-cli/src/daemon.rs:1863-1950 | An acknowledgement follows the store of a conversation and counts as delivered at the sender |
| Delivery.AnswersAtMostOnce | crates/openxgram-cli/src/daemon.rs:1319-1354 | One envelope answers its conversation at most once, and exactly when |
| Delivery.SpacedAgentAddIsDelivered | crates/openxgram-cli/src/daemon.rs:1357-1466 | An agent-add message behind white space, once stored, ends like a conversation and is not handled as an agent-add; only its recipient is not woken |
| Delivery.BatchEffectsBelong | crates/openxgram-cli/src/daemon.rs:1357-1466 | Over a batch, every delivery comes from a stored conversation with a recipient, every acknowledgement from a stored conversation, and acknowledgements and identity updates are never stored |
| Delivery.BatchAcksFollowStores | crates/openxgram-cli/src/daemon.rs:1002-1956 | Over a batch, every acknowledgement follows the store of its envelope |
| Delivery.BatchSplitsExactly | crates/openxgram-cli/src/daemon.rs:1002-1956 | Over a batch, each stored conversation with a recipient ends in exactly one way and no other envelope in any |
| BatchLog.AcksTellWhatHappened | crates/openxgram-cli/src/daemon.rs:1863-1877 | In the log of a batch an acknowledgement says acp_delivered if and only if a session owns the message, tmux_injected if and only if a terminal got it, inbox_stored if and only if neither |
| BatchLog.LogHolds | crates/openxgram-cli/src/daemon.rs:1002-1956 | The log of a batch holds exactly the effects of its envelopes, each with what the limiter said after those before it |
| BatchLog.BatchTakes | crates/openxgram-cli/src/daemon.rs:1631-1856 | Where each stored conversation of a batch goes, for every setting, liveness and outcome of the calls, read off the log: session, terminal or undelivered list, and whether the session was called |
| BatchLog.BatchRecords | crates/openxgram-cli/src/daemon.rs:1005-1466 | Exactly which envelopes are stored, consumed as agent-add, change identities, are recorded as acknowledgements, and are acknowledged |
| BatchLog.BatchAnswers | crates/openxgram-cli/src/daemon.rs:1046-1088 | An envelope answers its conversation if and only if it names one and is stored, or is an acknowledgement of a message with one of the three delivered statuses |
| BatchLog.BatchWakes | crates/openxgram-cli/src/daemon.rs:722-776 | A batch wakes the recipient of a conversation if and only if the text is worth showing, the terminal is dead, waking is possible and on, and every earlier attempt for it is a window old |

## Left out

- HTTP, tmux, SSH, Discord, Telegram and Tailscale calls: each is a choice of the environment.
- SQLite itself, apart from the roll-back of the purchase and earning transactions.
- Signatures, digests and the gate that authorises identity updates: parameters.
- Json: white space inside a value, `\u` escapes of surrogate pairs and the formatting of floating-point numbers; a float is kept as its text.
- PullRepeatsWhen: lists in which two accepted announcements bear one public key have no closed condition here; a served list has none, by `Gossip.AdvertisedDistinct`.
- Framing: a value that cannot be serialised, which JSON values never are.
- Rpc: the wrap-around of the 64-bit request counter.
- Session: how one update object is decoded, which is a parameter.
- Outbound: the refreshed timestamp in a retransmitted body, rows deleted together with a conversation in the interface, and the replay cache of the receiver.
- Gossip: the `last_seen`, `created_at` and `notes` columns, the key store scan that decides which aliases are drivable, and a delete that the database refuses.
- Fleet: registration of senders by the envelopes they send, and session markers written by the agent-session bridge.
- Wallets: overflow of 64-bit amounts, the daily and monthly spending limits of the payment gateway, and `record_ledger` as an entry point of its own.
- Ingest: what a handled line becomes, a log that shrinks or is replaced, and a crash between handling lines and storing the offset.
- Timestamps: leap seconds and years beyond 9999.
- Polling: the Discord, Telegram and outbox pollers, which follow the same pattern.
- Singleton: the branch for systems without file locks, and failures to open the lock file.
- Ports: two commands at once on one registry file, and the directory that a failed add leaves behind.
- AcpRegistry: the idle reaper's rule against closing a session in mid-turn, the session status column, and the update channels.
- Delivery: registration and verification of senders, payment receipts, and the text shown to a terminal.
- Command-line and graphical interfaces, backups, static site, and the thin clients of other protocols.
