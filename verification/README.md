# iTantra protocol stack in Dafny

iTantra carries speech and chat over Bluetooth Low Energy. Under its user interface lies a protocol
stack of plain state-machine code: semantic packets (V6A), transport frames (V6B), fragments (V7),
reliable delivery per peer (V8), and a flooding mesh (BITCHAT). This project models that stack and
proves what it promises, over all inputs and all runs.

## How the model is built

Each part has two faces. Functions on values describe one call or one step; a class with the fields
and loops of the TypeScript or Kotlin class is proved, method by method, to do exactly what the function
says. The theorems are about the functions, so they hold of the classes. Statements about runs speak of
histories: sequences of states and inputs in which each state follows from the one before.

- `Bytes.dfy`, `Collections.dfy`: big-endian fields, signed 32-bit reading, windows of recent entries.
- `FragmentCodec.dfy`, `Reassembler.dfy`, `Reassembly.dfy`, `ReassemblerRuns.dfy`, `ReassemblerFates.dfy`:
  splitting packets, reassembling them in any order, what holds for arbitrary fragments, and which groups
  are opened and closed.
- `Utf8.dfy`, `BinaryMessageCodec.dfy`, `V6BFrameCodec.dfy`, `BitChatPacket.dfy`,
  `BitChatPacketCodec.dfy`, `ReliabilityPayloads.dfy`, `WireFormats.dfy`: the codecs, and their formats byte
  by byte.
- `Sequence.dfy`: sequence numbers across the 2^31 and 2^32 boundaries.
- `ReliabilityManager.dfy`, `ReliabilityRuns.dfy`, `ReliabilityRounds.dfy`, `ReliabilityRetries.dfy`: the
  reliable sender with its asynchronous retransmission loops. Every `await` is a step boundary; a suspended loop is a record that a later
  `Resume` input continues, so any number of stale loops may be suspended at once.
- `ReceiverCaches.dfy`, `ReliableLink.dfy`, `ReliableLinkRuns.dfy`, `SpeechWindow.dfy`, `LinkProgress.dfy`,
  `LinkMemory.dfy`: the receive path, and sender and receiver joined by a channel that loses, repeats and
  reorders; what the memories of 64 deliveries and 64 groups are worth, and what happens when everything
  gets through.
- `DedupCache.dfy`, `RelayEngine.dfy`, `MeshNetwork.dfy`, `FloodCoverage.dfy`: one mesh node, whole
  networks, and the reach of a flood that goes round by round.
- `AnyOrderFlood.dfy`, `FloodGrowth.dfy`, `FloodOutcomes.dfy`: floods whose copies arrive in any order, what
  they can come to, and exactly when they are sure to reach everybody.
- `PeerRegistry.dfy`, `PeerMap.dfy`, `MeshDiscoveryRegistry.dfy`: the peer records, the adapter's peer maps
  and the registry of heard-of nodes.
- `GattWriteQueue.dfy`, `GattAnswers.dfy`: the per-connection write queue of the Android side, and what the
  callbacks of its writes hear.
- `TxOwnership.dfy`, `TxHandshake.dfy`, `TxTurns.dfy`: the half-duplex handshake between two sides: when both
  may come to own the link, and how turns begin and end.
- `ChatMessageStore.dfy`, `ChatMessageService.dfy`, `ChatStack.dfy`: typed chat and its store, and the whole
  stack from text to frame and back.
- `MeshService.dfy`, `MeshChat.dfy`, `OverlappingChat.dfy`: a chat message flooded through a whole network,
  its packets one after another or all at once, and the chat services that hear them.

Node and packet ids are numbers in the mesh modules and canonical spellings in the codecs; `BitChatPacket`
proves that the two correspond one to one, and spellings of one width sort like their values. Clock
readings, answers of the platform, losses and timer firings are inputs.

## Findings

- `readUInt32BE` reads a signed number. A V6B sequence number therefore survives its frame exactly when it
  is below 2^31 (`V6BFrameCodec.SequenceSurvives`). The validator computes its expected number with a
  signed mask as well, so the two agree on the wire; on unsigned numbers it would report a gap for every
  number from 2^31 on (`Sequence.SpuriousGap`).
- `splitV6AForBudget` says it mirrors `splitV6A` at the full budget. It does, except for packets of 491 to
  499 bytes, which one sends whole and the other splits (`FragmentCodec.BudgetMirrorsUnlessBorderline`).
- The half-duplex handshake grants whenever its owner is NONE, even with a request of its own pending, and a
  grant does not say which request it answers. So both sides can become owners: when requests cross
  (`TxCrossings.RequestsCross`), when a side requests while its own grant for the peer is in transit
  (`TxCrossings.GrantCrosses`), and when a late grant is taken for the answer to a later request although
  the peer owns the link by then (`TxCrossings.OldGrantCrosses`). These are all the ways: a run stays clear
  of two owners, now and without any further request, exactly if no request in it crosses
  (`TxHandshake.OneOwnerExactly`). A request crosses when the peer owns the link and an old grant for the
  requester is in transit, or when the peer waits for an answer and a grant for it or a request from it is
  in transit (`TxHandshake.CrossesPlainly`).
- A grant token is a signed number, and a negative one cannot be encoded: with a counter from 2^31 on, half
  of all grants never reach the wire and are taken back (`TxHandshake.GrantIsSent`). The counter starts at 0
  (src/hooks/useBLEVoiceMode.ts:252), so this takes 2^31 requests and grants in one process.
- `DeliveredMessageCache` calls itself an LRU cache. Neither it nor `DedupCache.checkAndMark` refreshes an
  entry on a hit, so both are first-in-first-out windows: a packet is handed over exactly if its id is not
  among the last 64 handed over (`SpeechWindow.HandedOverExactly`), and there are runs in which a message is
  spoken, found known and acknowledged again, and spoken a second time after exactly 64 others, however
  recent the repetition was (`SpeechWindow.SpokenAgainAfter64`). For the mesh the number is 256
  (`DedupCache.ForgottenAfter256`).
- The UTF-8 decoder accepts byte strings that the encoder never writes, of two kinds: code points from
  0x110000 on, such as F4 90 80 80, which reads as two low surrogates (`Utf8.LargeCodeCollides`), and
  separately encoded surrogates, which read as the pair (`Utf8.SplitPairCollides`). An accepted byte string is
  reproduced by encoding what it decodes to exactly if it contains neither (`Utf8.ReencodesExactly`).
- A flood whose copies overtake each other can stop short of nodes within its time to live: the copy that has
  come the long way round may arrive first and die. The outcomes are exactly the stalled trees of first
  copies: each node in the tree got its first copy from a neighbour one hop nearer, and those below the time
  to live have all their neighbours in the tree (`AnyOrderFlood.OutcomeIsStalled`,
  `FloodOutcomes.StalledIsOutcome`). A node is therefore sure to get a packet exactly if it is in every stalled
  tree (`FloodOutcomes.GetsExactly`), and a broadcast is sure to reach everybody within reach exactly if every
  stalled tree has them all (`FloodOutcomes.CoversExactly`). So it is with a time to live of 0 or 1, with one
  of at least the number of nodes less one, and on trees of any size. With the time to live of 5 that the code
  uses (src/BITCHAT/core/BitChatConstants.ts:54-57), that covers all networks of up to six nodes; on a ring of
  six with a seventh node attached, the seventh can be missed although it is two hops away
  (`FloodOutcomes.StopsShort`).

## Model

| member | source | states |
|---|---|---|
| FragmentCodec.FragmentCodec.SplitV6A | src/protocol/FragmentCodec.ts:93-146 | no fragments up to 499 bytes, the exact ordered fragmentation in 490-byte chunks above, an error past 62720 bytes; the group counter moves by one modulo 2^32 only when fragments are made |
| FragmentCodec.FragmentCodec.SplitV6AForBudget | src/protocol/FragmentCodec.ts:163-226 | succeeds exactly when the packet fits the budget, with the exact ordered fragmentation at that budget |
| FragmentCodec.FragmentationIsFaithful | src/protocol/FragmentCodec.ts:105-146 | a fragmentation has 2 to 128 fragments, each non-empty, within budget and parseable, and joining the data gives back the packet |
| FragmentCodec.CountIsCeiling | src/protocol/FragmentCodec.ts:108-120 | the number of chunks is the ceiling of length over chunk size |
| FragmentCodec.ParseWritten | src/protocol/FragmentCodec.ts:237-302 | parseHeader reads back every written header, whatever data follows |
| FragmentCodec.ParseAcceptsExactlyWritten | src/protocol/FragmentCodec.ts:237-289 | parseHeader accepts exactly the payloads that begin with the bytes of a valid header, and returns that header |
| WireFormats.FragmentLayout | src/protocol/FragmentCodec.ts:237-302 | marker F7, four bytes of group id, index, total, two bytes of length |
| FragmentCodec.BudgetMirrorsUnlessBorderline | src/protocol/FragmentCodec.ts:93-226 | at the full budget and under one group id the two splitters give the same result for every packet, except exactly for those of 491 to 499 bytes, which one sends whole and the other in two fragments |
| Reassembler.GroupKeyInjective | src/protocol/Reassembler.ts:35-40 | for sources of at most 128 characters, equal keys mean equal source and group id |
| Reassembler.Reassembler.AddFragment | src/protocol/Reassembler.ts:55-132 | the class does exactly what the function on tables says, and keeps the table invariant |
| Reassembler.Reassembler.TryComplete | src/protocol/Reassembler.ts:137-168 | the byte-sum and copy loops compute the index-ordered concatenation; the group is gone afterwards |
| Reassembler.Reassembler.Cleanup | src/protocol/Reassembler.ts:176-186 | exactly the expired groups go, and their number is returned |
| Reassembler.Reassembler.ResetSource | src/protocol/Reassembler.ts:193-199 | exactly the groups of that source go |
| Reassembler.Reassembler.AbortOldestGroup | src/protocol/Reassembler.ts:204-216 | the first group with the least creation time goes |
| Reassembler.AddFragmentKeepsTable | src/protocol/Reassembler.ts:55-132 | whatever fragment arrives, the table invariant is kept |
| Reassembler.CompleteIsConcatenation | src/protocol/Reassembler.ts:113-168 | a complete result is the concatenation of the stored chunks and the arriving one, of the announced length |
| Reassembler.FirstChunkWins | src/protocol/Reassembler.ts:86-111 | a call never overwrites a chunk, and adds at most its own under an index that was free |
| ReassemblerRuns.AlwaysBounded | src/protocol/Reassembler.ts:55-216 | in every run on arbitrary fragments: at most 8 groups, each under its own key, not full, counting its chunks right, indices in range, bytes within the announced length |
| ReassemblerRuns.CompleteAnswersAreWhole | src/protocol/Reassembler.ts:113-168 | in every run every complete answer is the index-ordered concatenation of one key's chunks, of exactly the announced length |
| ReassemblerRuns.FirstChunkStays | src/protocol/Reassembler.ts:86-111 | the first chunk accepted under an index stays as long as its group does |
| ReassemblerFates.AnswersExactly | src/protocol/Reassembler.ts:55-168 | for every table and fragment: an error exactly if the header is invalid or contradicts the open group, or the new chunk makes it too long, or full and too short; complete exactly if the new chunk makes it full and of the announced length |
| ReassemblerFates.ClosesExactly | src/protocol/Reassembler.ts:55-216 | a call closes exactly: the groups opened more than 30 seconds ago (cleanup), those of the source (reset), a fragment's own group when it completes or fails, and the first opened of the oldest groups when a ninth is opened |
| ReassemblerFates.OpensExactly | src/protocol/Reassembler.ts:73-100 | a newly open group is that of the fragment, created now, and holds just its chunk |
| ReassemblerFates.OthersAsBefore | src/protocol/Reassembler.ts:55-132 | any other group that stays open is as it was |
| ReassemblerFates.ExpiresExactly | src/protocol/Reassembler.ts:176-186 | in every run cleanup closes a group exactly if its first fragment came more than 30 seconds earlier, whatever came since |
| ReassemblerFates.ForgetsExactly | src/protocol/Reassembler.ts:193-199 | in every run a reset closes a group exactly if a fragment of that source opened it |
| Reassembly.SplitThenReassemble | src/protocol/Reassembler.ts:55-168 | for every interleaving, reordering and repetition of the fragments of any number of packets, with at most 8 groups open: an arrival answers complete, with exactly the original bytes, just when it is the last missing one |
| Reassembly.EveryPacketCompletes | src/protocol/Reassembler.ts:55-168 | once all fragments of a packet have arrived, some arrival has completed it with its bytes |
| Reassembly.RealStepGenuine | src/protocol/Reassembler.ts:55-132 | with groups aborted or expired at will, a genuine fragment never errs and completes only with the bytes sent under its key |
| Reassembly.SessionTracks | src/protocol/Reassembler.ts:55-168 | along every session the reassembler refines a receiver that merely collects indices |
| ReliabilityManager.ReliabilityManager.Send | src/protocol/ReliabilityManager.ts:156-191 | the message becomes active or replaces the queued one; says which |
| ReliabilityManager.ReliabilityManager.HandleAck | src/protocol/ReliabilityManager.ts:206-242 | state and outputs after an acknowledgement, deferred during retransmission |
| ReliabilityManager.ReliabilityManager.HandleNack | src/protocol/ReliabilityManager.ts:246-286 | state and outputs after a rejection |
| ReliabilityManager.ReliabilityManager.HandleTimeout | src/protocol/ReliabilityManager.ts:290-323 | state and outputs after a timeout |
| ReliabilityManager.ReliabilityManager.StartRetransmission | src/protocol/ReliabilityManager.ts:327-336 | a new loop of a new generation runs up to its first await |
| ReliabilityManager.ReliabilityManager.RunLoop | src/protocol/ReliabilityManager.ts:338-355 | the loop sends its next frame unless stale, acknowledged, done or unencodable; the ReliabilityRounds rows say what rounds of it come to |
| ReliabilityManager.ReliabilityManager.EndLoop | src/protocol/ReliabilityManager.ts:356-370 | only the loop of the current generation promotes or restarts the timer |
| ReliabilityManager.ReliabilityManager.ResumeLoop | src/protocol/ReliabilityManager.ts:338-372 | what the settling of a pending send leads to |
| ReliabilityManager.ReliabilityManager.Cancel | src/protocol/ReliabilityManager.ts:377-400 | state and outputs after a cancel |
| ReliabilityManager.ReliabilityManager.PromoteQueued | src/protocol/ReliabilityManager.ts:466-476 | the queued message becomes active with a fresh retry count and one promotion |
| ReliabilityProofs.StepInv | src/protocol/ReliabilityManager.ts:156-400 | every input keeps the invariant |
| ReliabilityRuns.RunsGoOn | src/protocol/ReliabilityManager.ts:156-400 | every history can be continued by every input |
| ReliabilityRuns.OneLiveLoop | src/protocol/ReliabilityManager.ts:206-400 | in every run, at every point: retransmitting holds exactly when one unfinished loop carries the current generation, there is no second one, and its message is the active one |
| ReliabilityRuns.OnlyActiveFrames | src/protocol/ReliabilityManager.ts:338-372 | however many stale loops are suspended, every frame a step starts to send is the next frame of the active, unacknowledged message |
| ReliabilityRuns.AtMostThreeRounds | src/protocol/ReliabilityManager.ts:246-373 | no message is retransmitted more than three rounds |
| ReliabilityRuns.NeverStuck | src/protocol/ReliabilityManager.ts:197-202 | after onFrameSent, for as long as the message is active, the timer is armed or a live loop is sending it |
| ReliabilityRuns.EveryStepConserves | src/protocol/ReliabilityManager.ts:156-476 | a message leaves the active slot only acknowledged, out of retries or cancelled; unless cancelled the queued one takes its place in the same step with one promotion; the retired never return |
| ReliabilityRuns.ExactlyOnePlace | src/protocol/ReliabilityManager.ts:156-191 | every registered message is active, queued or retired, exactly one of the three, and queued implies active |
| ReliabilityRuns.RetiredForever | src/protocol/ReliabilityManager.ts:156-476 | a retired message is never active or queued again |
| ReliabilityRuns.EveryStepReports | src/protocol/ReliabilityManager.ts:206-400 | each step reports exactly what happened to the active message, and settled messages' groups are forgotten |
| ReliabilityRuns.AckedWaitsOrIsRetired | src/protocol/ReliabilityManager.ts:206-242 | once acknowledged, a message is at every later point retired, or active under the live loop that is sending it |
| ReliabilityRuns.LoopRetires | src/protocol/ReliabilityManager.ts:338-372 | and when that loop's send settles, it is retired, sending ends, and the queued message is promoted |
| ReliabilityRuns.NoSilentLoss | src/protocol/ReliabilityManager.ts:206-400 | in every run a message that was active is still active, or retired after a step at which its acknowledgement, the end of its retries or its cancellation was reported |
| ReliabilityRounds.RetryStartsRound | src/protocol/ReliabilityManager.ts:327-352 | in every run a retry with a send function, no round going on and retries left opens a live loop and starts frame 0 of the active message |
| ReliabilityRounds.NextFrameFollows | src/protocol/ReliabilityManager.ts:338-352 | while the loop is live and its message unacknowledged, each successful send of frame i is followed by that of frame i + 1 |
| ReliabilityRounds.RoundInOrder | src/protocol/ReliabilityManager.ts:338-352 | at every point of every run each round has started an initial part of its message's frames, in order and each once |
| ReliabilityRounds.RoundIsComplete | src/protocol/ReliabilityManager.ts:338-370 | a live round that ends after a successful send, unacknowledged, has started exactly the frames 0 to the last, each once and in order, and the timer runs again |
| ReliabilityRounds.TimerRunsExactly | src/protocol/ReliabilityManager.ts:197-370 | after every step of every run the timer runs exactly if onFrameSent or the end of a round has started it, or it was running and has neither fired nor been stopped by the answer to the active message or a cancellation |
| ReliabilityRetries.CountsRetries | src/protocol/ReliabilityManager.ts:246-323 | in every run the retry count of the active message is the number of its retries that have been reported |
| ReliabilityRetries.GivesUpAfterThree | src/protocol/ReliabilityManager.ts:246-323 | and the message is given up exactly at the request for a retry that follows three reported ones |
| ReliabilityRetries.NackIsHeard | src/protocol/ReliabilityManager.ts:246-286 | in every run, while the messages of a group are waiting, a NACK of the group makes the active message registered under it be retried or given up |
| ReliabilityRetries.QueuedAckRetires | src/protocol/ReliabilityManager.ts:234-241 | an acknowledgement of the queued message retires it and forgets its group, silently and without touching the active one |
| ReliabilityRetries.CancelForgetsBoth | src/protocol/ReliabilityManager.ts:377-400 | a cancellation retires both messages, forgets both groups and stops timer and round |
| ReliabilityPayloads.AckRoundTrip | src/protocol/ReliabilityManager.ts:404-415 | a canonical id survives the acknowledgement payload, whatever bytes follow |
| ReliabilityPayloads.AckIsUnambiguous | src/protocol/ReliabilityManager.ts:404-415 | whatever parses is the acknowledgement of the id it parses to |
| ReliabilityPayloads.NackRoundTrip | src/protocol/ReliabilityManager.ts:419-434 | rejections come back modulo their field widths, so unchanged exactly when they fit |
| WireFormats.AnswerLayout | src/protocol/ReliabilityManager.ts:404-434 | what a receiver reads in the bytes of an acknowledgement or a rejection |
| WireFormats.RejectionLayout | src/protocol/ReliabilityManager.ts:419-434 | group id, reason and five zero bytes |
| ReceiverCaches.DeliveredMessageCache.IsDelivered | src/protocol/DeliveredMessageCache.ts:30-41 | finds an id exactly when it is among the peer's entries |
| ReceiverCaches.DeliveredMessageCache.MarkDelivered | src/protocol/DeliveredMessageCache.ts:50-66 | evicts the oldest of 64 and pushes; other peers untouched |
| ReceiverCaches.PushIsWindow | src/protocol/DeliveredMessageCache.ts:50-66 | so the cache is the window of the last 64 deliveries |
| ReceiverCaches.CompletedGroupCache.GetCompletedMessageId | src/protocol/CompletedGroupCache.ts:31-41 | the id of the most recent entry for the group |
| ReceiverCaches.CompletedGroupCache.Store | src/protocol/CompletedGroupCache.ts:61-78 | evicts the oldest of 64 and pushes; other peers untouched |
| VoiceReceiver.VoiceReceiver.ReceiveData | src/hooks/useBLEVoiceMode.ts:1469-1550 | the binary receive path on two caches and a reassembler: reassembles, deduplicates, hands over, acknowledges, remembers completed groups; HandedOverExactly and AnsweredFromMemory say what that comes to |
| ReliableLink.OnDataOK | src/hooks/useBLEVoiceMode.ts:1469-1550 | whatever bytes arrive, the delivered cache stays the window of the last 64 handed-over ids and only handed-over ids are acknowledged |
| ReliableLinkRuns.HonestAck | src/hooks/useBLEVoiceMode.ts:1469-1550 | over a channel that loses, repeats and reorders: a message the sender regards as acknowledged has had its wire id handed to speech |
| ReliableLinkRuns.AckedMessageWasHeard | src/hooks/useBLEVoiceMode.ts:1469-1550 | if no other message shares its id, it has itself been handed to speech, with its own text |
| ReliableLinkRuns.NothingInvented | src/hooks/useBLEVoiceMode.ts:1469-1550 | everything handed to speech is a message that was given to the sender |
| ReliableLinkRuns.SpokenAtMostOnce | src/protocol/DeliveredMessageCache.ts:30-66 | two deliveries of one wire id have at least 64 deliveries of other, pairwise different ids between them |
| SpeechWindow.HandedOverExactly | src/hooks/useBLEVoiceMode.ts:1469-1550 | a packet is handed over exactly if its id is not among the last 64 handed over, and acknowledged in any case |
| SpeechWindow.SpokenAgainAfter64 | src/protocol/DeliveredMessageCache.ts:30-66 | 64 is exact: runs of the link in which a message is spoken, acknowledged again after any k < 64 others, and spoken again after exactly 64 others |
| LinkMemory.AnsweredFromMemory | src/hooks/useBLEVoiceMode.ts:1486-1523 | in every run of the link, after a fragmented message has been handed over and while fewer than 64 other groups have been completed since, each of its frames that comes again is acknowledged with its id and touches neither the reassembler nor what has been heard |
| LinkProgress.ArrivedIsSpoken | src/hooks/useBLEVoiceMode.ts:1469-1550 | when every frame of a message arrives in a stretch of a run without expiry and with room, in any order among any others, its id has been handed to speech and acknowledged at the end |
| LinkProgress.AckRetires | src/protocol/ReliabilityManager.ts:206-242 | the acknowledgement of a spoken active message marks it, and retires it at once in favour of the queued one unless a loop is sending |
| LinkProgress.LoopRetires | src/protocol/ReliabilityManager.ts:338-372 | whenever the active message is acknowledged, a live loop is sending it, and however that loop's send settles, the message is then retired and the queued one active |
| DedupCache.DedupCache.CheckAndMark | src/BITCHAT/mesh/DedupCache.ts:87-106 | duplicate exactly when the key is cached, and then nothing changes; else the key is pushed and the oldest shifted out |
| DedupCache.DedupCache.MarkSeen | src/BITCHAT/mesh/DedupCache.ts:66-79 | a repeated key moves to the young end |
| DedupCache.DedupCache.PruneExpired | src/BITCHAT/mesh/DedupCache.ts:113-118 | exactly the entries older than the cutoff go |
| DedupCache.FreshSplit | src/BITCHAT/mesh/DedupCache.ts:113-118 | pruning takes out exactly the entries from before the cutoff and leaves the others in their order |
| DedupCache.OthersSplit | src/BITCHAT/mesh/DedupCache.ts:66-79 | marking takes out exactly the entries of the key and leaves the others in their order |
| DedupCache.KeyInjective | src/BITCHAT/mesh/DedupCache.ts:140-142 | different 64-bit pairs have different keys |
| DedupCache.MarkKeepsWindow | src/BITCHAT/mesh/DedupCache.ts:87-106 | checkAndMark keeps the cache the window of the latest first sightings, equal ones more than its size apart |
| DedupCache.CacheIsWindow | src/BITCHAT/mesh/DedupCache.ts:87-106 | after any sequence of checkAndMark calls the cache holds the last of the sightings it has let through |
| DedupCache.ForgottenAfter256 | src/BITCHAT/mesh/DedupCache.ts:87-106 | 256 is exact, and a repetition does not refresh: a key known after fewer than 256 others is new again once 256 others have followed its first sighting |
| MeshRouter.GetRelayPeers | src/BITCHAT/mesh/MeshRouter.ts:44-63 | exactly the connected peers except the local and the incoming one, in ascending order |
| RelayEngine.RelayEngine.Receive | src/BITCHAT/mesh/RelayEngine.ts:88-158 | cache, deliveries and sends of one received packet, in order |
| RelayEngine.OriginationReaches | src/BITCHAT/mesh/RelayEngine.ts:172-226 | the count that an origination returns is the number of connected peers, other than the node itself, whose send did not fail |
| RelayEngine.RelayEngine.Originate | src/BITCHAT/mesh/RelayEngine.ts:172-226 | cache and sends of an originated packet; counts exactly the peers whose send succeeds |
| MeshNetwork.NothingForged | src/BITCHAT/mesh/RelayEngine.ts:88-226 | in every run every copy under way or delivered is an originated packet in all but its time to live, and hops plus time to live is the originating one |
| MeshNetwork.DeliveredWhereAddressed | src/BITCHAT/mesh/RelayEngine.ts:68-71 | in every run a unicast is delivered only at its destination |
| MeshNetwork.AnnouncesStayLocal | src/BITCHAT/mesh/RelayEngine.ts:108-148 | in every run announcements make one hop only: nobody relays them |
| MeshNetwork.DeliveriesFarApart | src/BITCHAT/mesh/DedupCache.ts:87-106 | in every run two deliveries of one packet identity at one node have at least 256 other, pairwise different first sightings between them |
| MeshNetwork.ArrivalBurnsFuel | src/BITCHAT/mesh/RelayEngine.ts:117-148 | in an n-node network each arrival strictly decreases the sum of n^ttl over the packets under way |
| MeshNetwork.FloodsEnd | src/BITCHAT/mesh/RelayEngine.ts:117-148 | no stretch of arrivals and losses is longer than the fuel it starts with, whatever caches have evicted and links have changed |
| MeshNetwork.RelayListSize | src/BITCHAT/mesh/MeshRouter.ts:44-63 | a relay list in an n-node network has fewer than n entries |
| FloodCoverage.ReachIsPaths | src/BITCHAT/mesh/RelayEngine.ts:117-148 | the d-hop neighbourhood is the set of nodes that a path of at most d links leads to |
| FloodCoverage.RoundByRound | src/BITCHAT/mesh/RelayEngine.ts:88-226 | after round d exactly the nodes within d hops have seen the packet, and each addressed one but the origin has been handed it once |
| FloodCoverage.FloodCovers | src/BITCHAT/mesh/RelayEngine.ts:88-226 | a broadcast with time to live T is delivered exactly once at every node 1 to T hops away and never at its origin, at distance d with time to live T - d; then nothing is under way |
| FloodCoverage.FloodExists | src/BITCHAT/mesh/RelayEngine.ts:172-226 | every packet can be flooded from every idle network that has not seen it, so the coverage theorem speaks of something |
| FloodCoverage.FloodKeepsUnseen | src/BITCHAT/mesh/DedupCache.ts:87-106 | a flood makes no node see any packet but its own |
| FloodCoverage.UnicastArrives | src/BITCHAT/mesh/RelayEngine.ts:88-226 | a unicast within T hops is delivered exactly once, at its destination; out of reach nowhere |
| AnyOrderFlood.OutcomeIsStalled | src/BITCHAT/mesh/RelayEngine.ts:88-226 | in every run in which copies of a packet are repeated, delayed and overtaken at will but not lost: when none is under way any more, exactly the addressed nodes of some stalled tree of first copies have been handed it, once each and with only the time to live changed, and nobody else |
| FloodOutcomes.StalledIsOutcome | src/BITCHAT/mesh/RelayEngine.ts:88-226 | conversely, for every stalled tree there is a run in which exactly its nodes get the packet |
| FloodOutcomes.GetsExactly | src/BITCHAT/mesh/RelayEngine.ts:88-226 | for every network, packet and time to live, an addressed node gets the packet exactly once in all such runs if and only if it is in every stalled tree |
| FloodOutcomes.CoversExactly | src/BITCHAT/mesh/RelayEngine.ts:88-226 | a broadcast gets to exactly the nodes within its time to live, in whatever order, if and only if every stalled tree has all of them |
| FloodOutcomes.AnyOrderCovers | src/BITCHAT/mesh/RelayEngine.ts:88-226 | under that condition the packet, broadcast or not, is handed over exactly once at every addressed node within its time to live, and nowhere else |
| FloodOutcomes.ShortestWays | src/BITCHAT/mesh/RelayEngine.ts:172-226 | the copies that travel shortest ways always make a stalled tree of all nodes within reach, so no other nodes can be sure |
| FloodOutcomes.ShortIsCovered | src/BITCHAT/mesh/RelayEngine.ts:117-148 | the condition holds of every network with a time to live of 0 or 1 |
| FloodOutcomes.LongIsCovered | src/BITCHAT/mesh/RelayEngine.ts:117-148 | it holds of every network with a time to live of at least the number of nodes less one |
| FloodOutcomes.TreeIsCovered | src/BITCHAT/mesh/RelayEngine.ts:117-148 | it holds of every tree with any time to live |
| FloodOutcomes.StopsShort | src/BITCHAT/mesh/RelayEngine.ts:117-148 | every packet with the default time to live of 5 can, without a loss, miss a node two hops away in a symmetric network of seven nodes |
| AnyOrderFlood.RecentIsRemembered | src/BITCHAT/mesh/DedupCache.ts:87-106 | in every run a node that has first seen a packet, and at most 255 others since, still knows it |
| AnyOrderFlood.NothingForgottenYet | src/BITCHAT/mesh/DedupCache.ts:87-106 | in every run, while at most 256 packets have been originated, every node remembers all it has seen |
| GattWriteQueue.GattWriteQueue.EnqueueWrite | android/app/src/main/java/com/itantra/ble/GattWriteQueue.kt:64-84 | state after an enqueue; false exactly when the write was submitted now and refused |
| GattWriteQueue.GattWriteQueue.NotifyCompletion | android/app/src/main/java/com/itantra/ble/GattWriteQueue.kt:93-104 | state and callbacks after a completion; a stale one is ignored |
| GattWriteQueue.GattWriteQueue.ClearKey | android/app/src/main/java/com/itantra/ble/GattWriteQueue.kt:111-117 | all pending writes of the key settle with false, in order |
| GattWriteQueue.GattWriteQueue.ClearAll | android/app/src/main/java/com/itantra/ble/GattWriteQueue.kt:121-125 | every key is cleared |
| GattWriteQueue.GattWriteQueue.PumpLocked | android/app/src/main/java/com/itantra/ble/GattWriteQueue.kt:142-160 | drains refused writes until one is accepted, and terminates |
| GattWriteQueue.StepOK | android/app/src/main/java/com/itantra/ble/GattWriteQueue.kt:64-176 | every operation keeps the invariant and leaves other keys' queues, flights and events alone |
| GattWriteQueue.QueueIsFifo | android/app/src/main/java/com/itantra/ble/GattWriteQueue.kt:64-176 | in every run, for every key: listed exactly when in flight, with the in-flight write at the head, and enqueued equals settled plus pending |
| GattWriteQueue.TrackMeaning | android/app/src/main/java/com/itantra/ble/GattWriteQueue.kt:142-183 | of a key's writes exactly the settled ones have had their callback, each once, and none is submitted twice |
| GattWriteQueue.SubmittedInTurn | android/app/src/main/java/com/itantra/ble/GattWriteQueue.kt:142-176 | a write is submitted only when exactly the earlier writes of its key have settled; success is reported only of a submitted write |
| GattWriteQueue.StepRefinesQueue | android/app/src/main/java/com/itantra/ble/GattWriteQueue.kt:64-160 | each operation is append, pop, or clear on a plain queue, followed by dropping refused writes at the front |
| GattAnswers.StepTells | android/app/src/main/java/com/itantra/ble/GattWriteQueue.kt:64-160 | a completion of a key with a write under way first settles that write with the platform's answer; whatever else any operation settles hears false and belongs to the same key |
| GattAnswers.HearsTrueExactly | android/app/src/main/java/com/itantra/ble/GattWriteQueue.kt:93-104 | in every run the callback of a write hears true exactly if the write was under way when a completion with true came |
| GattAnswers.TeardownSettlesAll | android/app/src/main/java/com/itantra/ble/GattWriteQueue.kt:111-125 | clearing all keys, in whatever order, settles every outstanding write with false, once, and leaves none under way |
| Utf8.EncodeText | src/protocol/BinaryMessageCodec.ts:100-136 | the loop computes the encoding |
| Utf8.DecodeText | src/protocol/BinaryMessageCodec.ts:143-208 | the loops compute the decoding, with the same errors |
| Utf8.ByteLength | src/protocol/BinaryMessageCodec.ts:213-230 | counts exactly the bytes of the encoding |
| Utf8.RoundTrip | src/protocol/BinaryMessageCodec.ts:100-208 | every sequence of 16-bit units, lone surrogates included, survives encoding and decoding |
| Utf8.EncodingInjective | src/protocol/BinaryMessageCodec.ts:100-136 | different strings have different encodings |
| Utf8.ReencodesExactly | src/protocol/BinaryMessageCodec.ts:100-208 | an accepted byte string is reproduced by encoding its decoding exactly if no code point from 0x110000 on starts in it and no encoded high surrogate is directly followed by an encoded low one |
| Utf8.EncodingsExactly | src/protocol/BinaryMessageCodec.ts:100-208 | the encoder writes exactly the accepted byte strings of that kind |
| Utf8.SplitPairCollides | src/protocol/BinaryMessageCodec.ts:143-208 | two separately encoded surrogates decode to the pair, which itself is encoded in four bytes instead of six |
| Utf8.LargeCodeCollides | src/protocol/BinaryMessageCodec.ts:143-208 | F4 90 80 80 decodes to two low surrogates, which are encoded in other bytes |
| WireFormats.CodeForm | src/protocol/BinaryMessageCodec.ts:100-136 | every code point takes the bytes that section 3 of RFC 3629 gives it |
| WireFormats.FirstCodeForm | src/protocol/BinaryMessageCodec.ts:100-136 | a string is encoded code point by code point, surrogate pairs being one |
| BinaryMessageCodec.BuildPacket | src/protocol/BinaryMessageCodec.ts:241-279 | the buffer holds the header fields and the text |
| BinaryMessageCodec.PacketRoundTrip | src/protocol/BinaryMessageCodec.ts:241-433 | every valid message comes back with its text, labels and confidence and the canonical hash of its id; only an unregistered language becomes "unknown" |
| WireFormats.ValidExactly | src/protocol/BinaryMessageCodec.ts:515-556 | a message is valid exactly if it has an id, a text that is not blank, and a registered emotion and voice profile |
| WireFormats.MessageLayout | src/protocol/BinaryMessageCodec.ts:241-279 | each header byte of a packet is the field the format puts there |
| WireFormats.MessageAccepted | src/protocol/BinaryMessageCodec.ts:331-433 | which byte strings are accepted, and that each field read is the one the format puts there |
| WireFormats.HashVectors | src/protocol/BinaryMessageCodec.ts:70-86 | the hash has the published values of 64-bit FNV-1a for nothing and for the letter a |
| WireFormats.XorBits | src/protocol/BinaryMessageCodec.ts:70-78 | its exclusive or works digit by digit |
| V6BFrameCodec.EncodeFrame | src/protocol/V6BFrameCodec.ts:43-93 | the frame, or the first error in the order of the checks |
| V6BFrameCodec.FrameRoundTrip | src/protocol/V6BFrameCodec.ts:43-163 | a frame comes back, whatever bytes follow; its sequence number as a signed number modulo 2^32 |
| V6BFrameCodec.SequenceSurvives | src/protocol/V6BFrameCodec.ts:203-218 | the sequence number itself survives exactly below 2^31 |
| V6BFrameCodec.AcceptedIsWritten | src/protocol/V6BFrameCodec.ts:104-163 | whatever is accepted with a non-negative length begins with the frame that encode writes |
| WireFormats.FrameLayout | src/protocol/V6BFrameCodec.ts:43-93 | version 3, type, four bytes each of sequence number and length, the most significant first, then the payload |
| WireFormats.FrameAccepted | src/protocol/V6BFrameCodec.ts:43-93 | a frame is encoded exactly if its type is known, its number has 32 bits and its payload at most 499 bytes |
| BitChatPacket.FormatThenRead | src/BITCHAT/core/BitChatPacket.ts:94-131 | every 64-bit value has a canonical spelling that reads back as it |
| BitChatPacket.ReadThenFormat | src/BITCHAT/core/BitChatPacket.ts:94-131 | every canonical spelling is the spelling of its value |
| BitChatPacket.NormalizeIdempotent | src/BITCHAT/core/BitChatPacket.ts:59-98 | normalizing yields a canonical spelling, and doing it again changes nothing |
| BitChatPacket.NormalizeFixesCanonical | src/BITCHAT/core/BitChatPacket.ts:59-107 | the canonical spellings are exactly the fixed points of normalizing |
| WireFormats.ReadsDecimal | src/BITCHAT/core/BitChatPacket.ts:59-98 | a decimal number between blanks is read exactly if it has at most 64 bits, as its canonical spelling |
| WireFormats.ReadsCanonical | src/BITCHAT/core/BitChatPacket.ts:59-98 | a canonical spelling between blanks is read as itself |
| BitChatPacketCodec.EncodeEnvelope | src/BITCHAT/core/BitChatPacketCodec.ts:39-80 | the envelope, or the first error in the order of the checks |
| BitChatPacketCodec.DecodeEnvelope | src/BITCHAT/core/BitChatPacketCodec.ts:89-126 | the fields read in order from the bytes, or the first error; the reading that the round trips are about |
| BitChatPacketCodec.EnvelopeRoundTrip | src/BITCHAT/core/BitChatPacketCodec.ts:39-126 | every valid envelope comes back unchanged |
| BitChatPacketCodec.AcceptedIsEncoded | src/BITCHAT/core/BitChatPacketCodec.ts:39-126 | every accepted byte string is the encoding of what it decodes to |
| WireFormats.EnvelopeLayout | src/BITCHAT/core/BitChatPacketCodec.ts:39-80 | each of the 28 header bytes of an envelope is the field the format puts there |
| Sequence.SequenceManager.NextSequence | src/protocol/SequenceManager.ts:30-34 | returns the counter and advances it modulo 2^32 |
| Sequence.SequenceValidator.Validate | src/protocol/SequenceValidator.ts:56-94 | the verdict and the new last number of that source; other sources untouched |
| Sequence.AcceptsAhead | src/protocol/SequenceValidator.ts:56-94 | a number is accepted exactly when it is 1 to 2^31 ahead modulo 2^32 |
| Sequence.StreamVerdict | src/protocol/SequenceValidator.ts:56-94 | after stream position n, position m is valid if next, a gap if 2 to 2^31 ahead, a duplicate if 0 to 2^31 - 1 behind |
| Sequence.StreamIsValid | src/protocol/SequenceManager.ts:18-34 | a stream of any length, numbered by the manager from any counter, encoded, decoded and validated in order, never shows a gap or a duplicate |
| Sequence.PositionsIncrease | src/protocol/SequenceValidator.ts:56-94 | whatever arrives, the unwrapped position grows by 1 to 2^31 on every accepted number and stands still otherwise |
| Sequence.SpuriousGap | src/protocol/SequenceValidator.ts:75-94 | on unsigned numbers the next in order is reported as a gap exactly from 2^31 on |
| TxControlCodec.TxControlRoundTrip | src/protocol/TxControlCodec.ts:76-110 | an encodable payload comes back exactly when its op is known |
| TxControlCodec.TxControlAccepted | src/protocol/TxControlCodec.ts:97-110 | whatever decodes is the encoding of what it decodes to |
| WireFormats.ControlLayout | src/protocol/TxControlCodec.ts:76-110 | op, four bytes of token, four bytes of request id |
| TxOwnership.TxLink.RequestTxOwnership | src/hooks/useBLEVoiceMode.ts:770-840 | state and frames of a request; a failed transmission takes it back |
| TxOwnership.TxLink.ReleaseTxOwnership | src/hooks/useBLEVoiceMode.ts:846-866 | ownership is given up; the peer is told only if we owned the link |
| TxOwnership.TxLink.HandleTxControl | src/hooks/useBLEVoiceMode.ts:875-950 | state and frames after a request, a grant or a release; malformed payloads are dropped; the TxTurns rows say what that comes to |
| TxOwnership.TxLink.RemoteWatchdogFired | src/hooks/useBLEVoiceMode.ts:277-299 | a remote turn that stays silent is freed |
| TxOwnership.TxLink.GrantSettled | src/hooks/useBLEVoiceMode.ts:889-898 | a grant that could not be transmitted is reverted |
| TxOwnership.TxLink.Disconnected | src/hooks/useBLEVoiceMode.ts:1707-1714 | a disconnect of the recorded owning peer frees the link |
| TxHandshake.RequestSafeExactly | src/hooks/useBLEVoiceMode.ts:770-950 | at a link without hazard, a request brings one exactly if it reaches the air and crosses; the condition reads owners, pending requests, counters and frames in transit before the request |
| TxHandshake.CrossesPlainly | src/hooks/useBLEVoiceMode.ts:770-950 | while the counters are below 2^31, a request crosses exactly when the peer owns the link and an old grant for the requester is in transit, or the peer waits and a grant for it or a request from it is in transit |
| TxHandshake.HazardExactly | src/hooks/useBLEVoiceMode.ts:770-950 | both sides may come to own the link without a further request exactly in a hazard |
| TxHandshake.OneOwnerExactly | src/hooks/useBLEVoiceMode.ts:770-950 | in every run, with lost and overtaken frames, timeouts, watchdogs, failed grants, releases and disconnects: no request crosses exactly if at no point both sides own the link or may come to without a further request |
| TxHandshake.OneOwner | src/hooks/useBLEVoiceMode.ts:770-950 | in every run in which no request crosses the two sides are never both owners |
| TxHandshake.OwnersHoldTokens | src/hooks/useBLEVoiceMode.ts:929-936 | in every run, crossings or not, an owner's token is not zero |
| TxHandshake.DisconnectFrees | src/hooks/useBLEVoiceMode.ts:1707-1714 | in every run, crossings or not, a disconnect frees either side |
| TxTurns.RemoteEndsExactly | src/hooks/useBLEVoiceMode.ts:875-950 | in every run a side with a remote owner is free again exactly when a RELEASE arrives, the watchdog fires, its grant fails, the peer disconnects or it releases; it becomes owner exactly when an awaited grant arrives |
| TxTurns.SelfEndsExactly | src/hooks/useBLEVoiceMode.ts:846-950 | an owner yields exactly when it releases, a grant of its own fails or the peer disconnects |
| TxTurns.TurnBeginsExactly | src/hooks/useBLEVoiceMode.ts:883-936 | a free side yields to the peer exactly when a request arrives, and owns the link exactly when an awaited grant arrives |
| TxTurns.ReleaseFrees | src/hooks/useBLEVoiceMode.ts:938-942 | in every run a RELEASE that reaches a side with a remote owner leaves it free, with nobody recorded as owning, and able to send a request at once unless it already waits |
| TxTurns.FailedGrantFrees | src/hooks/useBLEVoiceMode.ts:889-898 | so does the report that a grant could not be transmitted |
| TxTurns.WatchdogFrees | src/hooks/useBLEVoiceMode.ts:277-299 | so does the watchdog, except that the peer stays recorded |
| TxTurns.TakenLinkRefuses | src/hooks/useBLEVoiceMode.ts:901-905 | a request is refused, with its own id and without effect, exactly if the link is taken |
| TxTurns.RefusalEndsWait | src/hooks/useBLEVoiceMode.ts:915-936 | and the refusal ends the wait of the side that requested |
| TxTurns.WaitsExactly | src/hooks/useBLEVoiceMode.ts:770-936 | a side waits exactly if it has sent a request and neither answer nor timeout has come since |
| TxTurns.FailedRequestIsTakenBack | src/hooks/useBLEVoiceMode.ts:770-840 | a request that cannot be transmitted leaves nothing behind but a used counter value |
| TxTurns.TokenExactly | src/hooks/useBLEVoiceMode.ts:846-936 | the token becomes that of an accepted grant, none when the link is released, granted away or lost with its recorded owner, and otherwise stays |
| TxTurns.IdsAreNew | src/hooks/useBLEVoiceMode.ts:246-252 | in every run, below 2^31, each request and each accepting grant of a side carries the next value of its counter, so no id is used twice |
| TxTurns.WholeTurn | src/hooks/useBLEVoiceMode.ts:770-950 | request, grant, acceptance, release and its arrival, among any other frames in transit: the requester alone owns the link, with the granted token, and in the end both sides are free and nothing of the turn is in transit |
| TxTurns.TurnsLeaveNothing | src/hooks/useBLEVoiceMode.ts:770-950 | after any number of such turns by either side in any order the link is at rest again |
| TxCrossings.RequestsCross | src/hooks/useBLEVoiceMode.ts:883-905 | a run in which a request crosses another request alone in transit, and both sides end up owning the link |
| TxCrossings.GrantCrosses | src/hooks/useBLEVoiceMode.ts:883-905 | a run in which a request crosses an accepting grant alone in transit to the waiting peer, and both sides end up owning the link |
| TxCrossings.OldGrantCrosses | src/hooks/useBLEVoiceMode.ts:915-936 | a run in which an old grant is taken for the answer to a new request while the peer owns the link and waits for nothing |
| TxCrossings.CrossingBreaks | src/hooks/useBLEVoiceMode.ts:883-905 | runs that end with two owners do not avoid crossings |
| TxHandshake.GrantIsSent | src/hooks/useBLEVoiceMode.ts:883-900 | a grant reaches the wire exactly when the next counter value is not negative as a signed number |
| PeerRegistry.PeerRegistry.MarkConnected | src/BITCHAT/peer/PeerRegistry.ts:98-101 | the peer is connected and seen now |
| PeerRegistry.PeerRegistry.GetPeers | src/BITCHAT/peer/PeerRegistry.ts:82-84 | the list shows exactly the connected peers as connected |
| PeerMap.BitChatBLEAdapter.RegisterPeer | src/BITCHAT/BitChatBLEAdapter.ts:189-212 | both maps and the registry after a registration |
| PeerMap.BitChatBLEAdapter.UnregisterPeer | src/BITCHAT/BitChatBLEAdapter.ts:218-231 | both maps and the registry after a disconnect |
| PeerMap.RegisterMaps | src/BITCHAT/BitChatBLEAdapter.ts:189-212 | a registration makes its pair current, drops what either side was mapped to, and touches no other pair |
| PeerMap.UnregisterMaps | src/BITCHAT/BitChatBLEAdapter.ts:218-231 | a disconnect forgets exactly the pair of its key; all other pairs and records stay |
| PeerMap.MappedExactly | src/BITCHAT/BitChatBLEAdapter.ts:189-231 | after every sequence of operations a key is mapped to a node exactly if the two were paired, by registration or announcement, and not parted since |
| PeerMap.DataIsSeen | src/BITCHAT/BitChatBLEAdapter.ts:424-431 | data from a mapped key updates when its node was last seen, and nothing else |
| PeerMap.AlwaysBijective | src/BITCHAT/BitChatBLEAdapter.ts:189-257 | after every sequence of operations the maps are each other's inverse and the connected peers are exactly the mapped nodes |
| PeerMap.ReadyMeansMapped | src/BITCHAT/BitChatBLEAdapter.ts:251-257 | a key has a ready route exactly when it is mapped |
| PeerMap.BitChatBLEAdapter.OriginateTargets | src/BITCHAT/BitChatBLEAdapter.ts:132-143 | the keys an origination goes to, each once: those mapped to other nodes than the local one |
| PeerMap.EachKeyOnce | src/BITCHAT/BitChatBLEAdapter.ts:132-143 | relaying never misses a mapping; an origination reaches each registered key exactly once, except one mapped to the local node |
| PeerMap.AnnounceRoundTrip | src/BITCHAT/AnnounceCodec.ts:22-58 | a node's announcement registers exactly that node |
| WireFormats.AnnounceAccepted | src/BITCHAT/AnnounceCodec.ts:22-58 | a payload is accepted as the announcement of a node exactly if it is that node's |
| MeshDiscoveryRegistry.MeshDiscoveryRegistry.Record | src/BITCHAT/mesh/MeshDiscoveryRegistry.ts:86-115 | the id is recorded now and the report joins those since it was listed; the entries stay consistent with both |
| MeshDiscoveryRegistry.MeshDiscoveryRegistry.Has | src/BITCHAT/mesh/MeshDiscoveryRegistry.ts:122-134 | true exactly for ids recorded within the retention time among the capacity most recent ones |
| MeshDiscoveryRegistry.MeshDiscoveryRegistry.Get | src/BITCHAT/mesh/MeshDiscoveryRegistry.ts:141-153 | the record of exactly such an id, with its last recording time and the first of the shortest reports since it was listed |
| MeshDiscoveryRegistry.MeshDiscoveryRegistry.GetAll | src/BITCHAT/mesh/MeshDiscoveryRegistry.ts:160-163 | exactly those ids |
| MeshDiscoveryRegistry.EntriesAgree | src/BITCHAT/mesh/MeshDiscoveryRegistry.ts:86-180 | an unexpired entry exists exactly when the plain recording history says so |
| MeshDiscoveryRegistry.NoneStranded | src/BITCHAT/mesh/MeshDiscoveryRegistry.ts:201-215 | an unexpired entry is never crowded out in the history's eyes |
| ChatMessageStore.ChatMessageStore.AddIncomingChatMessage | src/messages/ChatMessageStore.ts:71-80 | stores a message unless sender and id are known, and says which |
| ChatMessageStore.OccursOnce | src/messages/ChatMessageStore.ts:71-80 | sender and id of an incoming message occur exactly once when known, else never |
| ChatMessageService.ChatMessageService.SendChatMessage | src/messages/ChatMessageService.ts:143-203 | what is planned and stored is the text without its outer blanks; SENT exactly when routed, within 128 fragments, and every origination is accepted by some peer; stops at the first refused one; the store has the message with its sender, recipient, text and outcome, and otherwise only statuses of outgoing messages with its id change |
| ChatMessageService.TrimmedExactly | src/messages/ChatMessageService.ts:144-145 | trimming yields t exactly if the text is t between blanks and t neither begins nor ends with one |
| ChatMessageService.TightIsTrimmed | src/messages/ChatMessageService.ts:144 | a text without outer blanks is sent unchanged |
| ChatMessageService.FragmentIdsDistinct | src/messages/ChatMessageService.ts:181-184 | the fragments of a message travel under valid, pairwise distinct packet ids |
| ChatMessageService.SendPlanFits | src/messages/ChatMessageService.ts:166-195 | every payload handed to the mesh is within budget, under valid and distinct packet ids |
| ChatStack.FrameCarriesPayload | src/BITCHAT/core/BitChatPacketCodec.ts:39-126 | a chat payload within budget makes a frame of at most 509 bytes that gives it back |
| ChatStack.SendPlanFrames | src/messages/ChatMessageService.ts:166-195 | everything sendChatMessage originates can be framed within 509 bytes on every hop |
| ChatStack.SingleFrameRecovers | src/messages/ChatMessageService.ts:111-136 | an unsplit message arrives whole in its one frame |
| ChatStack.StackRecovers | src/messages/ChatMessageService.ts:111-136 | frames of any messages, interleaved, reordered and repeated: each message is recovered, with its text and hashed id, just when its last missing frame arrives |
| MeshService.ServingRecovers | src/messages/ChatMessageService.ts:111-136 | a chat service handed different payloads of a message, in whatever order, recovers it exactly when it has been handed all of them, and from the last one |
| MeshService.PlansAreOriginated | src/messages/ChatMessageService.ts:143-195 | what sendChatMessage plans for a text that is not blank always passes the codec's validation |
| MeshChat.CampaignExists | src/messages/ChatMessageService.ts:166-195 | every planned message can be flooded, packet by packet, into every idle network that has seen none of its packets |
| MeshChat.EveryPayloadArrives | src/messages/ChatMessageService.ts:166-195 | when the packets of a message are flooded one after another, the first k floods hand exactly the first k payloads, in order, to every addressed node within reach, and nothing to any other |
| MeshChat.ChatReachesEveryone | src/messages/ChatMessageService.ts:111-195 | the chat service of each such node, fed with what the floods hand to that node, recovers the message exactly once, with its text and hashed id, from the last packet; no other service is handed anything |
| MeshChat.ShownOnce | src/messages/ChatMessageService.ts:86-102 | and the store of each such node then shows the message exactly once, with the id, sender, recipient and text it was sent with |
| MeshChat.TypedIsShown | src/messages/ChatMessageService.ts:143-144 | what is typed at one end is shown at the other, without its outer blanks and otherwise unchanged |
| OverlappingChat.ChatReachesEveryoneAnyhow | src/messages/ChatMessageService.ts:111-195 | when the packets are under way together, among other traffic, repeated and overtaken in any way but none of their copies lost: the chat service of every addressed node that is sure to get the packets, whatever their time to live, recovers the message exactly once; any other service recovers it once or not at all, and one out of reach is handed nothing |
| OverlappingChat.RecoversExactly | src/messages/ChatMessageService.ts:111-195 | an addressed node recovers the message in all such runs if and only if it is in every stalled tree |
| OverlappingChat.ShownOnceAnyhow | src/messages/ChatMessageStore.ts:71-80 | the store of each such node then shows the text exactly once |
| OverlappingChat.SomeFloodsExist | src/messages/ChatMessageService.ts:166-195 | every planned message can be flooded so |
| ChatStack.RecoveredStoredOnce | src/messages/ChatMessageStore.ts:71-80 | however often a message is recovered, the store holds it exactly once |

## Left out

- React screens, navigation, hooks' status texts and the language context.
- Native Bluetooth code other than the write queue, and the native module wrappers: a transmission is an input that succeeds or fails.
- Speech recognition, synthesis, audio capture and noise suppression.
- V4 JSON messages, plain-text fallback, raw V6A payloads without a transport frame, logging and diagnostics.
- Real time: clock readings and timer firings are inputs; the discovery registry is stated for a clock that moves on between recordings.
- Floating point: the confidence is the rounded and clamped byte.
- Random identifiers and the probability of hash collisions: FNV-1a is modelled, but nothing is claimed of its quality beyond one-byte strings; identities that must differ are assumed to differ.
- Frames whose declared length is 2^31 or more: decoders are modelled on them, but the round trips are stated for what encoders produce.
- The half of a V6A text length field from 2^31 on: PacketRoundTrip speaks of texts below 2^31 bytes, the longest that the signed length field can announce.
- Re-entrant callbacks, in the write queue and in the reliability manager.
- Emotions and voice profiles named like inherited object properties, such as `toString`, which the registry test of the original lets through and sends as code 0: labels are looked up in the registries only.
- The frame sequence numbers drawn inside a retransmission loop, NACK rate limiting, and the expiry of pending messages (a cancel at a later time).
- The mesh variant of the voice receive path, which marks deliveries without acknowledging them; only the direct path is joined to the sender.
- Expiry of the delivered and completed caches and of the dedup cache while the network runs: neither is called by the application.
- PeerRegistry's stale marking and removal, signal strength, and the adapter's suppression of a delivered packet with the last originated id; network theorems are stated where the relay engine delivers.
- UNREACHABLE outcomes of a transmission request, which change no ownership state, and links to more than one peer at a time.
- Packets without a source or packet id: ids are numbers here, so the relay engine's check for missing ones has no counterpart.
- VoiceReceiver.VoiceReceiver.ReceiveData: without the sequence check that precedes it (Sequence models the validator by itself) and without the JSON and plain-text fallbacks for payloads that do not decode.
- TxHandshake.OneOwner: stated for runs in which no request crosses, because the code does not prevent crossings; OneOwnerExactly shows that this is exactly what is needed.
- FloodCoverage.FloodCovers: stated for loss-free links that deliver round by round, where a time to live of the distance suffices; AnyOrderFlood and FloodOutcomes do without the rounds.
- AnyOrderFlood.OutcomeIsStalled: stated for packets none of whose copies is lost, as nothing reaches anybody when all are, and for points at which no node has seen more than 255 other packets since it first saw this one: with more, it is forgotten and may be handed over again (DedupCache.ForgottenAfter256).
- OverlappingChat.ChatReachesEveryoneAnyhow: speaks of the service as fed with this message's packets; how groups of several messages share one reassembler is the subject of ChatStack.StackRecovers.
