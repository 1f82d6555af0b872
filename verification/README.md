# Chunk delivery of Campus Mesh, modelled and proved

This project models how Campus Mesh delivers a file: the server cuts and hashes it, peers and the
origin send chunks, the browser's scheduler asks for them, verifies and stores them, and the
coordinator puts the file together. Everything is Dafny; `dafny verify dfyconfig.toml` checks it.

How the pieces fit together:

- **Scheduler.** `SchedulerModel` gives the effect of every handler of `ChunkScheduler` as a
  function of the state. Each `await` ends a step; the code behind it is a *task*, and resuming it
  is an event. A `Run` is any sequence of events, hence any interleaving of peers, timers, the
  origin, the hash, the store, `start` and `stop`. Which sends fail is an oracle given with each
  event. `ChunkSchedulers.ChunkScheduler` is the class with its fields, loops and mutual recursion;
  each method is proved to do what the function says, and the theorems are about the functions.
  They fix what is asked, of whom, when and in which order: `SchedulerWakes` says which events ask,
  `SchedulerOrder` in which order chunks are considered, `SchedulerRetries` and
  `SchedulerDepartures` whom a pass, a timeout and a departure turn to, `SchedulerPieces` what the
  blocks of a chunk add up to.
- **Atomic runs.** `SchedulerAtomic` runs verify, put and settle in one step, within one
  start-to-stop run, and proves that each such run is an interleaving (`AtomicRunIsRun`). One place
  per chunk and the byte counts hold in all atomic runs, and the potential bounds them. Over all
  interleavings `SchedulerInterleaving` says exactly when each chunk keeps one place and when the
  limit of eight holds, `SchedulerBytes` exactly when the counts hold, `SchedulerLiveness` exactly
  when a download comes to rest; `SchedulerCosts` gives the law of the potential, where an arrival
  is a loan that the write pays back; and `SchedulerTasks` follows one suspended task.
- **Around the scheduler.** `Wire`, `Bitfields`, `Slicing`, `Manifests`, `BlockTransfer`,
  `BlockDelivery`, `PeerMeshCoordinators` and `ChunkStores` model the path of the bytes; `EndToEnd`
  joins them. `Wire` and `Bitfields` fix every byte of a frame and every bit of a bitfield besides
  the round trips; `PeerFrames` follows a peer's frames into the scheduler, and `PeerRequests` a
  REQUEST into the store and back onto the connection. `SendQueues` with `PeerConnections` is the backpressure queue over a channel that may
  throw at any frame, `RateLimiters` the limiter for any clock.

The hash function is a parameter everywhere. Collision-freedom is assumed in `Fidelity`,
`AssembleDownload` and `BytesConserved` only, and there only between a stored chunk and the file's
chunk of the same index (`NoCollision`). A valid initial store (`ValidStore`) is assumed where a
run starts: the code trusts what it finds in the chunk store and never hashes it again.

The coordinator and the scheduler hold one `Bitfield` object per peer. A HAVE for another resource
marks it without waking the scheduler; that is the event `SharedHave`, and the class
`PeerMeshCoordinator` keeps track of which objects are shared.

Where the code does less than its documentation or a first reading suggests, the model follows the
code, a lemma gives a concrete input, and another says exactly when it happens:

| what happens | at an input | exactly when |
|---|---|---|
| A download comes to rest: a block past the declared end makes the copy throw after the request was dropped. A peer that announces, unchokes or leaves ends it | `OverrunExample` | `StallsExactly`, `StallEndsExactly` |
| A chunk is asked for again while it is verified, so that it is possessed and in flight at once | `TwiceExample` | `ApartExactly`, `RunsExactly` |
| A chunk is possessed and still at the origin: in every fetch, between its write and its continuation | `FetchedExample` | `NotRefetchedExactly`, `RunsExactly` |
| A refused chunk is asked of a peer and of the origin at once, and nine requests are outstanding | `RefusedExample` | `OneSourceExactly`, `CapExactly`, `RunsExactly` |
| A chunk asked for again is reported and counted twice | `TwiceExample` | `ConservedExactly` |
| A stopped download still reports a chunk, into the counters of the next one | `LateExample` | `Accepted`, `Account` |
| A retry asks the peer that timed out, where a comment and the repository's README promise a different one | `TimeoutExample` | `TimeoutAsksSamePeerExactly` |
| A retry gives a peer a third request | `ThirdRequestExample` | `RetryOverLimitExactly` |
| `getAvailableChunks` lists chunks of another resource, whose id continues with a second `::` | `ShadowExample` | `ListingExact` |
| A message changes on its way: its numbers do not fit 32 bits | `LostMessageExample` | `RoundTripExactly` |
| A channel that opens while another resource's scheduler is in place, as it is while `startDownload` lists the store, is told that scheduler's chunks as chunks of the current resource | `StaleGreetingExample` | `HandleChannelOpen`, `StaleGreetingHeard` |
| A clock that runs backwards lets the rate limiter exceed its limit | `BackwardsClockExample` | `ForgetsExactly`, `DiffersExactly`, `OverflowsExactly` |
| A channel that throws once leaves frames waiting for good, the later ones reported as sent | `StrandedExample` | `StrandsExactly`, `WokenExactly` |

## Model

| member | source | states |
|---|---|---|
| EndToEnd.Fidelity | apps/web/src/p2p/PeerMeshCoordinator.ts:554-586 | For every file, chunk size, valid store and interleaving: each possessed chunk is stored with the file's bytes, and once a download is complete, or reported as complete, the stored chunks join to the file, with the manifest's file hash |
| EndToEnd.AssembleDownload | apps/web/src/p2p/PeerMeshCoordinator.ts:554-586 | `assembleFile` after a run that reported completion, on a store with the writes of that run, returns exactly the file, verified |
| EndToEnd.StoreMirrors | apps/web/src/p2p/scheduler/ChunkScheduler.ts:398-402 | After the writes of any run the chunk store holds of the resource exactly what the scheduler stored, and of every other resource what it held before |
| EndToEnd.ReachableStates | apps/web/src/p2p/scheduler/ChunkScheduler.ts:369-417 | From a valid store, in every state of every interleaving: set bits have stored bytes with the manifest's hash, no bit was cleared, HAVE was sent for set bits only and for every gained one, completion is reported once all is possessed and never before, at most 8 in flight, at most 2 retries, known peers only, blocks collected only for chunks in flight |
| EndToEnd.ReachableAtomicStates | apps/web/src/p2p/scheduler/ChunkScheduler.ts:154-161 | In every atomic run possessed, in-flight and origin chunks are pairwise disjoint, at most 8 outstanding in all, exactly one fetch per chunk at the origin |
| EndToEnd.BytesConserved | apps/web/src/p2p/PeerMeshCoordinator.ts:498-507 | Each gained chunk is reported exactly once, P2P plus origin bytes are the manifest's sizes of the gained chunks, and the file size for a full download from an empty store |
| EndToEnd.SeederDelivers | apps/web/src/p2p/scheduler/ChunkScheduler.ts:319-417 | All blocks of a requested chunk, as frames in any order, with repeats and with harmless events between them, end with the chunk possessed with the file's bytes, announced, and reported as from a peer, whatever happens while it is hashed and while it is written |
| EndToEnd.RequestDelivers | apps/web/src/p2p/PeerMeshCoordinator.ts:365-403 | The same from the bytes of the REQUEST on: the seeder's store lookup, its block frames, its backpressure queue, and the frames that come off its wire gain the chunk |
| EndToEnd.OriginDelivers | apps/web/src/p2p/scheduler/ChunkScheduler.ts:287-313 | The range that the server streams for a chunk is accepted, stored, announced, and reported as from the origin, whatever happens before the answer, while it is hashed and while it is written |
| SchedulerTasks.StepMoves | apps/web/src/p2p/scheduler/ChunkScheduler.ts:365-417 | A suspended task waits as it is until it is resumed itself, whatever other event occurs, `stop` and departures included; only tasks that end before it move it up |
| SchedulerTasks.Accepted | apps/web/src/p2p/scheduler/ChunkScheduler.ts:365-417 | Bytes that have the manifest's hash end up marked, stored, announced and reported, through any interleaving in which their own task is not otherwise resumed |
| SchedulerTasks.WrittenIsRun | apps/web/src/p2p/scheduler/ChunkScheduler.ts:365-417 | and that is a run of the interleaved scheduler |
| EndToEnd.HonestDownload | apps/web/src/p2p/scheduler/ChunkScheduler.ts:122-313 | With an honest origin and no overrunning block, timeouts, lost requests, arrivals and answers number at most 5 per missing chunk, and after that many the download is complete; until then a running one has a request in flight or a fetch, and each timeout and each served answer strictly lowers the potential |
| SchedulerSafety.RunSafe | apps/web/src/p2p/scheduler/ChunkScheduler.ts:319-417 | Agreement of store and bitfield, verified writes only, and all bookkeeping are kept by every interleaving, including `stop` in mid-verification |
| SchedulerSafety.StepSafe | apps/web/src/p2p/scheduler/ChunkScheduler.ts:76-140 | Each single event keeps them and clears no bit |
| SchedulerSafety.StepQuiet | apps/web/src/p2p/scheduler/ChunkScheduler.ts:287-313 | No event but a finished hash or write changes store, bitfield or pending writes, or sends a HAVE |
| SchedulerLiveness.StallsExactly | apps/web/src/p2p/scheduler/ChunkScheduler.ts:345-362 | One event brings an unfinished download to rest if and only if it is the last request ending in an overrunning block, or the last peer chunk's hash or write being rejected |
| SchedulerLiveness.StallEndsExactly | apps/web/src/p2p/scheduler/ChunkScheduler.ts:93-140 | A download at rest stays so under all timers and promises; a peer's announcement, UNCHOKE or departure, or `stop`, ends the rest, and nothing else does |
| SchedulerLiveness.RunNeverStalls | apps/web/src/p2p/scheduler/ChunkScheduler.ts:146-214 | Without those two, no interleaving stalls, whatever peers choke, leave or fail to take a send |
| SchedulerExamples.OverrunExample | apps/web/src/p2p/scheduler/ChunkScheduler.ts:352-355 | One byte placed behind the end of the only chunk stalls the download |
| SchedulerPass.WorkConservation | apps/web/src/p2p/scheduler/ChunkScheduler.ts:154-222 | When the scheduler returns, 8 are outstanding, or each chunk it did not ask for has an unchoked holder and all its unchoked holders carry 2; it never raises the total above 8 |
| SchedulerWakes.WakesConserveWork | apps/web/src/p2p/scheduler/ChunkScheduler.ts:76-140 | After the start, and while running after each announcement, UNCHOKE, departure, timeout and settled verification or fetch, 8 are outstanding or each idle chunk has unchoked holders that all carry 2 |
| SchedulerWakes.AsksOnlyAwake | apps/web/src/p2p/scheduler/ChunkScheduler.ts:76-214 | Any other event makes no request and no fetch, but the one of a missing chunk whose bytes are refused |
| SchedulerWakes.StoppedAsksNobody | apps/web/src/p2p/scheduler/ChunkScheduler.ts:82-91 | In every state of every interleaving, a download that does not run has nothing in flight |
| SchedulerWakes.ReportsExactly | apps/web/src/p2p/scheduler/ChunkScheduler.ts:399-416 | What each event reports, in order: a completed write the HAVE, then the chunk with its source and length, then the end if nothing is missing; a wake-up of a complete download its end; anything else nothing |
| SchedulerOrder.RarestFirst | apps/web/src/p2p/scheduler/ChunkScheduler.ts:167-205 | If a pass asks for a chunk and leaves one of fewer holders, or of as many and a lower index, each unchoked holder of the one left was at the limit at its turn |
| SchedulerOrder.TurnsTaken | apps/web/src/p2p/scheduler/ChunkScheduler.ts:186-205 | Every chunk that somebody holds has its turn, fewer holders first and the lower index among equals |
| SchedulerOrder.UnheldInOrder | apps/web/src/p2p/scheduler/ChunkScheduler.ts:207-213 | If a pass newly sends a chunk that nobody holds to the origin, each such idle chunk of a lower index is there too |
| SchedulerOrder.ColdStart | apps/web/src/p2p/scheduler/ChunkScheduler.ts:146-214 | The start of an empty download without peers fetches exactly the first eight chunks, all if there are fewer |
| SchedulerPass.AvailableLists | apps/web/src/p2p/scheduler/ChunkScheduler.ts:158-188 | The first list holds exactly the idle chunks with a holder, once each, rarest first |
| SchedulerPass.UnheldServed | apps/web/src/p2p/scheduler/ChunkScheduler.ts:207-213 | An idle chunk that nobody holds goes to the origin unless the total limit is reached |
| SchedulerPass.PassGrows | apps/web/src/p2p/scheduler/ChunkScheduler.ts:146-214 | A pass keeps every request, asks only for idle chunks, of unchoked holders, starts one fetch per new origin chunk, and keeps the limit |
| SchedulerPass.PassWithinLimit | apps/web/src/p2p/scheduler/ChunkScheduler.ts:194-204 | A pass whose first sends succeed gives no peer a third request |
| SchedulerPass.RetryOverLimitExactly | apps/web/src/p2p/scheduler/ChunkScheduler.ts:264-281 | The retry path gives a peer a third request if and only if every unchoked holder carries 2 and the least loaded one takes it |
| SchedulerPass.RetriesAskOnePeer | apps/web/src/p2p/scheduler/ChunkScheduler.ts:224-285 | All attempts of one call go to the one least loaded holder, at successive retry counts; the first that succeeds is recorded; the origin is asked if and only if there is no holder or all fail |
| SchedulerRetries.HeadExactly | apps/web/src/p2p/scheduler/ChunkScheduler.ts:271-281 | The peer asked is the one who offers the chunk and carries no more requests than any other who does, and fewer than any such peer known longer |
| SchedulerRetries.PassAsksFirstChoice | apps/web/src/p2p/scheduler/ChunkScheduler.ts:190-205 | A pass asks for each chunk the first choice at its turn, up to three times, and else the origin |
| SchedulerRetries.TimeoutReplaces | apps/web/src/p2p/scheduler/ChunkScheduler.ts:247-285 | After a timeout a missing chunk is asked of the first choice at the first attempt left that it takes, and else goes to the origin, as it does if nobody offers it |
| SchedulerDepartures.DepartureReplaces | apps/web/src/p2p/scheduler/ChunkScheduler.ts:122-140 | Each request of a departed peer is replaced by one of another peer, with at least one more retry and at most two, at the first attempt that it takes, or else by a fetch; other requests stay; the oldest lost one goes to the first choice |
| SchedulerDepartures.StopClears | apps/web/src/p2p/scheduler/ChunkScheduler.ts:82-91 | After `stop` nothing is in flight, collected or at the origin; blocks and timers that come later change nothing |
| SchedulerRetries.TimeoutAsksSamePeerExactly | apps/web/src/p2p/scheduler/ChunkScheduler.ts:247-285 | After a timeout the chunk is asked of the same peer if and only if it is missing and that peer, without the lost request, is the first choice and takes it within the retries left |
| SchedulerExamples.TimeoutExample | apps/web/src/p2p/scheduler/ChunkScheduler.ts:247-259 | A run in which the only holder is asked again after its timeout |
| SchedulerExamples.ThirdRequestExample | apps/web/src/p2p/scheduler/ChunkScheduler.ts:122-140 | A run in which a departure leaves another peer with three requests |
| SchedulerPass.LeastLoaded | apps/web/src/p2p/scheduler/ChunkScheduler.ts:275-278 | The peer picked after the sort carries no more requests than any other candidate |
| SchedulerPass.FirstLeast | apps/web/src/p2p/scheduler/ChunkScheduler.ts:199-202 | Among equally loaded peers the one known longest is picked |
| SchedulerPeers.OffersExactly | apps/web/src/p2p/scheduler/ChunkScheduler.ts:93-140 | Over any interleaving a peer is a candidate for a chunk if and only if, by the last BITFIELD, HAVE, CHOKE, UNCHOKE or departure, it claims the chunk and does not refuse; a HAVE for another resource counts where the bitfield object is shared |
| SchedulerPotential.StepPays | apps/web/src/p2p/scheduler/ChunkScheduler.ts:122-313 | Per atomic step the potential falls by the number of timeouts, lost requests, arrived chunks and authentic answers, rises by at most 4 on a setback, and else never rises |
| SchedulerPotential.RunPays | apps/web/src/p2p/scheduler/ChunkScheduler.ts:224-313 | The same summed over whole runs, with one place per chunk kept throughout |
| SchedulerPotential.NeverFails | apps/web/src/p2p/scheduler/ChunkScheduler.ts:122-313 | Those events number at most 5 per initially missing chunk plus 4 per setback; reaching the bound means complete |
| SchedulerPotential.TimeoutLowers | apps/web/src/p2p/scheduler/ChunkScheduler.ts:247-259 | In every reachable atomic state the timeout of any request in flight strictly lowers the potential, whatever sends fail |
| SchedulerPotential.AnswerLowers | apps/web/src/p2p/scheduler/ChunkScheduler.ts:287-313 | So does an authentic answer to any fetch |
| SchedulerPotential.ArrivalLowers | apps/web/src/p2p/scheduler/ChunkScheduler.ts:319-363 | So does the arrival of a whole chunk from a peer, authentic or not |
| SchedulerPotential.AtomicRunNeverStalls | apps/web/src/p2p/scheduler/ChunkScheduler.ts:146-214 | Atomic runs without overrunning blocks never stall |
| SchedulerCosts.StepCosts | apps/web/src/p2p/scheduler/ChunkScheduler.ts:122-417 | One event of any interleaving lowers the potential by the timeouts, lost requests, refusals and writes that it is for chunks without another place, and raises it by at most 3 when a piece ends such a request, 4 when a fetch settles in vain, and 4 per request cleared by `stop` |
| SchedulerCosts.RunCosts | apps/web/src/p2p/scheduler/ChunkScheduler.ts:122-417 | The same summed over runs of any interleaving |
| SchedulerCosts.InterleavedBound | apps/web/src/p2p/scheduler/ChunkScheduler.ts:122-417 | So these events number at most 5 per initially missing chunk plus those loans, and at the bound nothing is missing |
| SchedulerAtomic.AtomicRunIsRun | apps/web/src/p2p/scheduler/ChunkScheduler.ts:357-361 | Every atomic run is an interleaving, so all that interleavings keep it keeps |
| SchedulerBytes.Conservation | apps/web/src/p2p/scheduler/ChunkScheduler.ts:399-416 | In atomic runs each gained chunk, and no other, is reported once, and the reported bytes of both kinds add up to the stored bytes gained |
| SchedulerBytes.ConservedExactly | apps/web/src/p2p/scheduler/ChunkScheduler.ts:399-416 | Over any interleaving that holds if no write completes for a chunk possessed already, and reporting once holds only then |
| SchedulerExamples.TwiceExample | apps/web/src/p2p/scheduler/ChunkScheduler.ts:345-361 | A run in which a chunk is possessed and in flight at once, and is reported twice |
| SchedulerExamples.LateExample | apps/web/src/p2p/scheduler/ChunkScheduler.ts:82-91 | A run in which the download is stopped while a chunk is hashed, and reports the chunk all the same |
| SchedulerInterleaving.ApartExactly | apps/web/src/p2p/scheduler/ChunkScheduler.ts:400-407 | One event puts a possessed chunk in flight, or one in flight among the possessed, if and only if it completes the write of a chunk that is in flight again |
| SchedulerInterleaving.OneSourceExactly | apps/web/src/p2p/scheduler/ChunkScheduler.ts:386-397 | One event leaves a chunk asked of a peer and of the origin at once if and only if it refuses the bytes of a chunk that is in flight again and not at the origin |
| SchedulerInterleaving.NotRefetchedExactly | apps/web/src/p2p/scheduler/ChunkScheduler.ts:287-313 | One event leaves a chunk possessed and at the origin if and only if it completes a write for a chunk whose fetch is not settled |
| SchedulerInterleaving.OnePlaceExactly | apps/web/src/p2p/scheduler/ChunkScheduler.ts:287-417 | One event gives a chunk a second place if and only if it is one of those three |
| SchedulerInterleaving.CapExactly | apps/web/src/p2p/scheduler/ChunkScheduler.ts:386-397 | One event takes the outstanding requests above 8, to exactly 9, if and only if it refuses a chunk while 8 are outstanding |
| SchedulerInterleaving.RunOverCap | apps/web/src/p2p/scheduler/ChunkScheduler.ts:386-397 | Over any interleaving at most 8 requests are outstanding, plus one for each chunk refused while 8 or more were |
| SchedulerInterleaving.RunsExactly | apps/web/src/p2p/scheduler/ChunkScheduler.ts:287-417 | Each of the three pairs of places, one place per chunk as a whole, and the limit of eight hold throughout a run of any interleaving if and only if the events that break them never occur |
| SchedulerOverlaps.RefusedExample | apps/web/src/p2p/scheduler/ChunkScheduler.ts:386-397 | A run in which a false byte, refused while 8 requests are outstanding, leaves its chunk asked of two sources and 9 outstanding |
| SchedulerOverlaps.FetchedExample | apps/web/src/p2p/scheduler/ChunkScheduler.ts:287-313 | A run of one ordinary fetch in which the chunk is possessed and at the origin |
| Sorting.SortCorrect | apps/web/src/p2p/scheduler/ChunkScheduler.ts:186-188 | The sort yields an ascending rearrangement |
| Sorting.SortStable | apps/web/src/p2p/scheduler/ChunkScheduler.ts:186-188 | and keeps the order of entries with equal keys |
| ChunkSchedulers.ChunkScheduler.constructor | apps/web/src/p2p/scheduler/ChunkScheduler.ts:63-74 | The initial state |
| ChunkSchedulers.ChunkScheduler.Handle | apps/web/src/p2p/scheduler/ChunkScheduler.ts:46-418 | Every handler of the object does exactly one step of the model |
| ChunkSchedulers.ChunkScheduler.ScheduleNext | apps/web/src/p2p/scheduler/ChunkScheduler.ts:146-214 | The loops compute the model's pass |
| ChunkSchedulers.ChunkScheduler.CountInFlightForPeer | apps/web/src/p2p/scheduler/ChunkScheduler.ts:216-222 | The counting loop gives the number of chunks asked of the peer |
| ChunkSchedulers.ChunkScheduler.ScheduleChunk | apps/web/src/p2p/scheduler/ChunkScheduler.ts:261-285 | The mutual recursion with `dispatchP2PRequest` ends and does the model's placing |
| ChunkSchedulers.ChunkScheduler.DispatchP2PRequest | apps/web/src/p2p/scheduler/ChunkScheduler.ts:224-245 | A failed send goes back with one more retry, a sent request is recorded |
| ChunkSchedulers.ChunkScheduler.RemovePeer | apps/web/src/p2p/scheduler/ChunkScheduler.ts:122-140 | The loop over the snapshot abandons and reschedules the peer's requests in order |
| ChunkSchedulers.ChunkScheduler.HandleTimeout | apps/web/src/p2p/scheduler/ChunkScheduler.ts:247-259 | A timed-out request is abandoned and rescheduled, then the pass runs |
| ChunkSchedulers.ChunkScheduler.HandlePiece | apps/web/src/p2p/scheduler/ChunkScheduler.ts:319-363 | Collecting, completion test, in-place copy and hand-over, and exactly when the copy throws |
| ChunkSchedulers.ChunkScheduler.Assemble | apps/web/src/p2p/scheduler/ChunkScheduler.ts:352-355 | The copying loop gives the overlay of the blocks in arrival order, or throws exactly when some block overruns |
| ChunkSchedulers.ChunkScheduler.UpdatePeerHave | apps/web/src/p2p/scheduler/ChunkScheduler.ts:103-113 | The new state, and exactly when `Bitfield.set` throws |
| ChunkSchedulers.ChunkScheduler.HashComputed | apps/web/src/p2p/scheduler/ChunkScheduler.ts:386-397 | A mismatch goes to the origin, a match waits for the store |
| ChunkSchedulers.ChunkScheduler.PutDone | apps/web/src/p2p/scheduler/ChunkScheduler.ts:400-416 | After the write: bit, HAVE, report, completion |
| ChunkSchedulers.ChunkScheduler.Stop | apps/web/src/p2p/scheduler/ChunkScheduler.ts:82-91 | Clears requests, blocks and origin marks, keeps tasks and data |
| PeerFrames.FramesTouchNoData | apps/web/src/p2p/PeerMeshCoordinator.ts:335-422 | No byte string a peer sends marks, stores, announces or reports a chunk, and all that interleavings keep is kept |
| PeerFrames.FramesDecide | apps/web/src/p2p/PeerMeshCoordinator.ts:335-422 | Over any run of frames of any peers and resources, among departures, other downloads and all other events: a peer is a candidate for a chunk if and only if it claims the chunk by its last BITFIELD of the resource and the HAVEs since, and its last CHOKE or UNCHOKE of the resource was no CHOKE; and the coordinator's own bitfields are what was said |
| PeerFrames.FrameHeard | apps/web/src/p2p/PeerMeshCoordinator.ts:335-422 | What one frame changes of what the scheduler believes of any peer and chunk, in terms of the message in it |
| PeerFrames.FrameNoted | apps/web/src/p2p/PeerMeshCoordinator.ts:340-362 | and of what the coordinator has noted itself |
| PeerFrames.ChokeSilences | apps/web/src/p2p/PeerMeshCoordinator.ts:405-410 | After the bytes of a CHOKE of the resource its peer is a candidate for no chunk |
| PeerFrames.UnchokeOffers | apps/web/src/p2p/PeerMeshCoordinator.ts:412-417 | After those of an UNCHOKE it is one for exactly what it announced |
| PeerFrames.ForeignFrame | apps/web/src/p2p/PeerMeshCoordinator.ts:342-417 | A frame of another resource leaves the scheduler alone, but for a HAVE on a shared bitfield |
| PeerFrames.PieceArrives | apps/web/src/p2p/PeerMeshCoordinator.ts:393-403 | A PIECE of the resource is the arrival of its block |
| PeerMeshCoordinators.PeerMeshCoordinator.HandleChannelOpen | apps/web/src/p2p/PeerMeshCoordinator.ts:311-330 | A peer whose channel opens is sent a BITFIELD with the scheduler's bits and an UNCHOKE under the current manifest's name, exactly if there are both; throws exactly if the name is too long |
| PeerFrames.GreetingHeard | apps/web/src/p2p/PeerMeshCoordinator.ts:311-330 | From these two frames a downloader of the resource takes exactly the sender's chunks, and may ask for them |
| PeerFrames.StaleGreetingHeard | apps/web/src/p2p/PeerMeshCoordinator.ts:311-330 | Where the scheduler is still another resource's, its chunks are taken for chunks of the named one, unless the lengths take different numbers of bytes |
| PeerFrames.StaleGreetingExample | apps/web/src/p2p/PeerMeshCoordinator.ts:311-330 | Two such frames, byte by byte |
| PeerRequests.LooksUpExactly | apps/web/src/p2p/PeerMeshCoordinator.ts:365-368 | A frame is looked up exactly if it is a REQUEST, and then the chunk that it names is, for its peer |
| PeerRequests.RequestLooksUp | apps/web/src/p2p/PeerMeshCoordinator.ts:365-368 | The same of the raw bytes |
| PeerRequests.RequestAnswered | apps/web/src/p2p/PeerMeshCoordinator.ts:365-389 | What a seeder that stores the chunk is made to hold on an open connection are its blocks in order, and decoded they join to the stored chunk |
| PeerMeshCoordinators.GivenAll | apps/web/src/p2p/PeerMeshCoordinator.ts:534-537 | A new scheduler knows exactly the peers that are known, in the same order and with the same bits, and none of them refuses |
| PeerMeshCoordinators.PeerMeshCoordinator.HandleDataMessage | apps/web/src/p2p/PeerMeshCoordinator.ts:335-422 | The dispatch: the whole new state of scheduler and coordinator for any bytes; a lookup exactly for a REQUEST, of its own resource and index, that finds exactly what is stored there; shared bitfields stay in agreement |
| PeerMeshCoordinators.PeerMeshCoordinator.AnswerRequest | apps/web/src/p2p/PeerMeshCoordinator.ts:368-389 | Behind the `await`, whatever happened meanwhile: an open connection is given PIECE frames with the consecutive 65536-byte blocks of the chunk that was found, laid out byte by byte, and nothing otherwise; and exactly when encoding throws |
| PeerMeshCoordinators.PeerMeshCoordinator.HandlePeerLeft | apps/web/src/p2p/PeerMeshCoordinator.ts:289-301 | The connection is closed and dropped, both sides forget the bitfield, and the peer's requests go elsewhere |
| PeerMeshCoordinators.PeerMeshCoordinator.StartDownload | apps/web/src/p2p/PeerMeshCoordinator.ts:428-441 | The running download is stopped, and what is listed is what is stored, and nothing else unless another resource's key is read as an index |
| PeerMeshCoordinators.PeerMeshCoordinator.ResumeDownload | apps/web/src/p2p/PeerMeshCoordinator.ts:442-547 | Behind the `await`, whatever happened meanwhile: a new scheduler with the listed bits, the store as it is and the bitfields of all known peers; one BITFIELD frame with exactly those bits to every open channel; then the start. None is made if a listed index is out of range or nothing is missing; an id too long for a frame leaves it created but not started |
| PeerMeshCoordinators.PeerMeshCoordinator.Broadcast | apps/web/src/p2p/PeerMeshCoordinator.ts:537-544 | The loop sends the frame once on each open connection and touches no other |
| ChunkSchedulers.ChunkScheduler.BitfieldMarked | apps/web/src/p2p/PeerMeshCoordinator.ts:349-357 | A mark on a shared bitfield changes that peer's bits and nothing else |
| PeerMeshCoordinators.PeerMeshCoordinator.LoadBitfield | apps/web/src/p2p/PeerMeshCoordinator.ts:441-445 | The bitfield of a new download holds exactly the listed indices, and loading throws exactly if one is out of range |
| PeerMeshCoordinators.PeerMeshCoordinator.Account | apps/web/src/p2p/PeerMeshCoordinator.ts:498-507 | The counters after a download began are the reported bytes of each kind, of the current scheduler and of stopped earlier ones together, and the numbers of chunks reported from peers and from the origin |
| PeerMeshCoordinators.PeerMeshCoordinator.OnChunkCompleted | apps/web/src/p2p/PeerMeshCoordinator.ts:498-507 | One report adds its bytes and one chunk to the counters of its source alone |
| PeerMeshCoordinators.PeerMeshCoordinator.AssembleFile | apps/web/src/p2p/PeerMeshCoordinator.ts:554-586 | Null exactly for a resource other than the current one; else joins the stored chunks in order, fails with the first missing index, and verifies the file hash |
| PeerMeshCoordinators.PutOfResource | apps/web/src/p2p/storage/chunk.store.ts:28-30 | A put changes one chunk of one resource as the scheduler sees it |
| BlockTransfer.TransferRoundTrip | apps/web/src/p2p/scheduler/ChunkScheduler.ts:330-355 | For any non-empty chunk, block size, order and repeats: complete exactly when every block arrived, and then the buffer is the chunk |
| SchedulerPieces.CompletesExactly | apps/web/src/p2p/scheduler/ChunkScheduler.ts:330-355 | For any blocks whatever: the first block at an offset counts, the chunk is complete exactly when the counted bytes reach the total that the first block declared, and it then overruns exactly if one reaches past that total |
| SchedulerPieces.AssembledAt | apps/web/src/p2p/scheduler/ChunkScheduler.ts:352-355 | Byte by byte, the buffer holds what the last of the counted blocks that covers the place says, and zero elsewhere |
| BlockTransfer.ServeRequest | apps/web/src/p2p/PeerMeshCoordinator.ts:371-387 | The slicing loop sends block after block as PIECE frames, wherever the channel throws, and itself throws exactly if the id is too long for a non-empty chunk |
| BlockDelivery.BlocksDeliverChunk | apps/web/src/p2p/PeerMeshCoordinator.ts:393-403 | The last missing frame makes the scheduler verify exactly the seeder's chunk, whatever harmless events came between |
| BlockDelivery.HarmlessSpares | apps/web/src/p2p/scheduler/ChunkScheduler.ts:76-140 | Only `stop`, its own peer's departure, its own timeout and its own blocks touch a request and what was collected for it |
| BlockDelivery.WireCarries | apps/web/src/p2p/PeerMeshCoordinator.ts:371-403 | The frames that the downloader receives may be read off the seeder's wire, behind all that was held before, wherever the channel threw, once nothing waits and nothing was lost |
| Wire.RoundTripExactly | packages/shared/src/p2p/protocol.wire.ts:75-202 | Encoding then decoding gives a message back if and only if its numbers fit 32 bits, its id 255 bytes, and its bits their count |
| Wire.HaveWraps | packages/shared/src/p2p/protocol.wire.ts:125-136 | A HAVE arrives with its index modulo 2^32 |
| Wire.LostMessageExample | packages/shared/src/p2p/protocol.wire.ts:125-136 | A HAVE for chunk 2^32 arrives as one for chunk 0 |
| Wire.DecodesEncoding | packages/shared/src/p2p/protocol.wire.ts:207-325 | A frame is decoded whatever follows it; a BITFIELD only if nothing does |
| Wire.EncodesDecoding | packages/shared/src/p2p/protocol.wire.ts:207-325 | Re-encoding an accepted byte string gives a prefix of it, all of it for a BITFIELD with its spare bits |
| Wire.AcceptedExactly | packages/shared/src/p2p/protocol.wire.ts:207-325 | The accepted byte strings are exactly the encodings, with anything behind all but a BITFIELD |
| Wire.EncodePiece | packages/shared/src/p2p/protocol.wire.ts:159-184 | Filling the buffer in place gives the frame, every byte of which is fixed: version 1, kind 4, the id behind its length, index, offset, total and data length high byte first, then the data; with the two kinds of refusal |
| Wire.EncodeBitfield | packages/shared/src/p2p/protocol.wire.ts:102-119 | likewise: version 1, kind 1, id, count, then the bytes |
| Wire.EncodeHave | packages/shared/src/p2p/protocol.wire.ts:125-136 | likewise: version 1, kind 2, id, index; refuses exactly a negative index or an id too long |
| Wire.EncodeRequest | packages/shared/src/p2p/protocol.wire.ts:142-153 | likewise: version 1, kind 3, id, index; refuses exactly a negative index or an id too long |
| Wire.EncodeChoke | packages/shared/src/p2p/protocol.wire.ts:190-193 | likewise: version 1, kind 5, id |
| Wire.EncodeUnchoke | packages/shared/src/p2p/protocol.wire.ts:199-202 | likewise: version 1, kind 6, id |
| Wire.FrameLaid | packages/shared/src/p2p/protocol.wire.ts:75-202 | The layout of each kind of frame |
| Wire.LayoutRead | packages/shared/src/p2p/protocol.wire.ts:207-325 | and how any byte string with such a header is read, by kind and first number |
| Wire.PieceRead | packages/shared/src/p2p/protocol.wire.ts:282-306 | likewise a PIECE, by its four numbers |
| Wire.HeadRefused | packages/shared/src/p2p/protocol.wire.ts:207-231 | Exactly which headers are refused, and how |
| Wire.FramesExample | packages/shared/src/p2p/protocol.wire.ts:125-153 | Two frames byte by byte |
| Bitfields.HistoryRefines | packages/shared/src/p2p/bitfield.ts:37-64 | After any history of `set` and `clear`, membership is decided by the last operation on the index |
| Bitfields.SpareBitsIgnored | packages/shared/src/p2p/bitfield.ts:113-125 | Bitfields that differ in spare bits only stay observationally equal under any history |
| Bitfields.BitAfter | packages/shared/src/p2p/bitfield.ts:37-52 | Setting or clearing one bit changes that bit alone |
| Bitfields.Bitfield.FromBytes | packages/shared/src/p2p/bitfield.ts:14-32 | Refused exactly if the count is negative or the bytes are not as few as hold that many bits; else the bytes' own set |
| Bitfields.Bitfield.Set | packages/shared/src/p2p/bitfield.ts:37-42 | Adds the index to the set and 2^(7 - index mod 8) to the number in byte index / 8 unless it was there, no other byte changing; or throws exactly when out of bounds |
| Bitfields.Bitfield.Clear | packages/shared/src/p2p/bitfield.ts:47-52 | Removes it from the set and the byte's number likewise, or throws exactly when out of bounds |
| Bitfields.Bitfield.Has | packages/shared/src/p2p/bitfield.ts:57-64 | Membership in the set, which is the binary digit 7 - index mod 8 of byte index / 8 |
| Bitfields.MembersAreDigits | packages/shared/src/p2p/bitfield.ts:57-64 | An index is in the set exactly if it is in range and that binary digit of its byte is one |
| Bitfields.WeightAfter | packages/shared/src/p2p/bitfield.ts:37-52 | What setting and clearing a bit do to the number in each byte |
| Bitfields.RequiredExactly | packages/shared/src/p2p/bitfield.ts:14-32 | The number of bytes is the least that holds the bits |
| Bitfields.Bitfield.Count | packages/shared/src/p2p/bitfield.ts:69-77 | Cardinality of the set |
| Bitfields.Bitfield.IsComplete | packages/shared/src/p2p/bitfield.ts:82-85 | All indices are in the set |
| Bitfields.ListsShareOut | packages/shared/src/p2p/bitfield.ts:90-111 | Available and missing indices share out the range |
| Bitfields.ListsAscend | packages/shared/src/p2p/bitfield.ts:90-111 | and both lists ascend strictly |
| Bitfields.CopyThroughBytes | packages/shared/src/p2p/bitfield.ts:113-125 | `fromBytes(toBytes)` holds the same set |
| Manifests.Generate | apps/server/src/resources/manifest.generator.ts:21-79 | Whatever data events the stream makes of a file, the manifest is that of its bytes |
| Manifests.ManifestGenerator.OnData | apps/server/src/resources/manifest.generator.ts:34-51 | The accumulator loop cuts off whole chunks and leaves less than one |
| Manifests.ManifestGenerator.OnEnd | apps/server/src/resources/manifest.generator.ts:53-73 | The last partial chunk and the result |
| Manifests.ManifestMatchesBounds | apps/server/src/resources/chunk.calculator.ts:20-41 | Count, sizes and hashes of the manifest are those of the ranges the server reads, and the sizes sum to the file size |
| Manifests.BoundsTile | apps/server/src/resources/chunk.calculator.ts:28-41 | Ranges are non-empty, contiguous, full but for the last, end with the file, have `length` bytes in [start, streamEnd], and hold each offset in exactly one |
| Manifests.BeyondTotal | apps/server/src/resources/chunk.calculator.ts:28-41 | At and beyond the total there are no bytes |
| Slicing.SlicesJoin | apps/server/src/resources/manifest.generator.ts:40-62 | The slices give back the file |
| ChunkStores.KeysInjective | apps/web/src/p2p/storage/chunk.store.ts:24-26 | Different chunks have different keys, for ids with any characters |
| ChunkStores.ListingExact | apps/web/src/p2p/storage/chunk.store.ts:45-58 | The listing is sorted, and is exactly the resource's indices, once each, if and only if no other resource's key is read as one |
| ChunkStores.PlainIdsUnshadowed | apps/web/src/p2p/storage/chunk.store.ts:45-58 | which cannot be while the stored ids hold no colon |
| ChunkStores.PrefixPicksOwn | apps/web/src/p2p/storage/chunk.store.ts:60-67 | then `clear` removes exactly the resource's chunks |
| ChunkStores.ShadowExample | apps/web/src/p2p/storage/chunk.store.ts:45-58 | A chunk of "a::1" is listed as one of "a" |
| ChunkStores.MemoryChunkStore.Put | apps/web/src/p2p/storage/chunk.store.ts:28-30 | The keyed map stands for a map from resource and index, updated at one place |
| ChunkStores.MemoryChunkStore.Get | apps/web/src/p2p/storage/chunk.store.ts:32-35 | Looks up that map |
| ChunkStores.MemoryChunkStore.Delete | apps/web/src/p2p/storage/chunk.store.ts:41-43 | Removes one chunk |
| ChunkStores.MemoryChunkStore.GetAvailableChunks | apps/web/src/p2p/storage/chunk.store.ts:45-58 | The loop and sort compute that listing |
| ChunkStores.MemoryChunkStore.Clear | apps/web/src/p2p/storage/chunk.store.ts:60-67 | The deleting loop removes exactly what is stored under the prefix |
| Decimals.ParsesDecimal | apps/web/src/p2p/storage/chunk.store.ts:50-51 | Decimal reading undoes decimal printing |
| SendQueues.RunKeeps | apps/web/src/p2p/webrtc/WebRtcPeerConnection.ts:110-130 | Over any run, wherever the channel throws: the wire carries those of the held frames that the channel took, in order, the queue is the rest, and `bufferedAmount` stays below 196608 plus the longest frame |
| SendQueues.SentAtOnceExactly | apps/web/src/p2p/webrtc/WebRtcPeerConnection.ts:189-209 | On an open channel a frame goes out at once exactly if none waits, fewer than 196608 bytes are buffered and the channel does not throw; else it is queued |
| SendQueues.WakesExactly | apps/web/src/p2p/webrtc/WebRtcPeerConnection.ts:81-112 | A wake-up comes exactly when the buffer falls to 65536 bytes or fewer from above |
| SendQueues.FlushesExactly | apps/web/src/p2p/webrtc/WebRtcPeerConnection.ts:118-130 | A flush sends frames from the front, each with fewer than 196608 bytes buffered, until none waits or that many are |
| SendQueues.StrandsExactly | apps/web/src/p2p/webrtc/WebRtcPeerConnection.ts:110-130 | One event leaves frames waiting with no wake-up to come if and only if the channel throws, with the buffer at or below the threshold, at a frame sent directly or at a queued one with others behind it |
| SendQueues.WokenExactly | apps/web/src/p2p/webrtc/WebRtcPeerConnection.ts:110-130 | Over any run every waiting frame has its wake-up to come if and only if that never happens |
| SendQueues.DeadForever | apps/web/src/p2p/webrtc/WebRtcPeerConnection.ts:189-209 | Once it happens, nothing is sent on the connection again, whatever is submitted and whatever the network does |
| SendQueues.StrandedExample | apps/web/src/p2p/webrtc/WebRtcPeerConnection.ts:189-209 | One refused frame on an idle channel: the next is reported as sent, and nothing ever is |
| SendQueues.LostExactly | apps/web/src/p2p/webrtc/WebRtcPeerConnection.ts:118-130 | Over any run a frame is lost if and only if a drain reaches one at which the channel throws |
| SendQueues.LosslessMeans | apps/web/src/p2p/webrtc/WebRtcPeerConnection.ts:118-130 | With none lost, and only then, wire and queue are together all frames held, in order |
| SendQueues.ReportedExactly | apps/web/src/p2p/webrtc/WebRtcPeerConnection.ts:189-209 | Over any run `send` returns true for every frame it holds if and only if the channel never throws at one sent directly |
| SendQueues.RefusedIsSent | apps/web/src/p2p/webrtc/WebRtcPeerConnection.ts:203-209 | A frame for which `send` returned false goes out all the same, at the next wake-up |
| SendQueues.AllSent | apps/web/src/p2p/webrtc/WebRtcPeerConnection.ts:118-130 | While the channel stays open and no longer throws, all that waits is sent in order, after at most one flush per waiting frame |
| SendQueues.BurstSent | apps/web/src/p2p/webrtc/WebRtcPeerConnection.ts:189-209 | A burst of frames is on the wire, in order and behind all that was held before, once nothing waits, if nothing was lost |
| SendQueues.BurstFlushed | apps/web/src/p2p/webrtc/WebRtcPeerConnection.ts:118-130 | which comes about after one flush per waiting frame, unless the burst strands one |
| PeerConnections.WebRtcPeerConnection.Send | apps/web/src/p2p/webrtc/WebRtcPeerConnection.ts:189-209 | Queues, transmits or, where the channel throws, queues and reports false: the whole new state and exactly when the answer is true |
| PeerConnections.WebRtcPeerConnection.DrainSendQueue | apps/web/src/p2p/webrtc/WebRtcPeerConnection.ts:118-130 | The loop drains as the model does, and exactly when a throw ends it |
| PeerConnections.WebRtcPeerConnection.Close | apps/web/src/p2p/webrtc/WebRtcPeerConnection.ts:219-240 | Drops the queue, and nothing is sent afterwards |
| RateLimiters.ForgetsExactly | apps/server/src/auth/rate-limiter.ts:20-30 | For any clock, the pruned record falls short of the full history if and only if an allowed call inside the window was found outside it by a later call; otherwise the two are equal |
| RateLimiters.DiffersExactly | apps/server/src/auth/rate-limiter.ts:20-30 | For any clock, an answer differs from the full history's if and only if fewer calls than the limit are remembered while at least as many count |
| RateLimiters.OverflowsExactly | apps/server/src/auth/rate-limiter.ts:16-31 | For any clock, some window holds more allowed calls than the limit if and only if a call came when fewer than the limit were remembered and a window around it was full |
| RateLimiters.OverflowForgets | apps/server/src/auth/rate-limiter.ts:20-30 | That takes a call inside the window that was forgotten |
| RateLimiters.RememberingBounds | apps/server/src/auth/rate-limiter.ts:16-31 | For any clock, while no call of a key comes with one inside its window forgotten, no window of the key holds more allowed calls than the limit |
| RateLimiters.WindowsBounded | apps/server/src/auth/rate-limiter.ts:16-31 | With a clock that does not run backwards no window of the given length, wherever it lies, holds more allowed calls of a key than the limit |
| RateLimiters.InMemoryRateLimiter.CheckLimit | apps/server/src/auth/rate-limiter.ts:16-31 | For any clock and any window lengths the new record and the answer; with one length, a call is allowed exactly if fewer than the limit are remembered, which with an ordered clock is the count of the unpruned window |
| RateLimiters.ServeAnswers | apps/server/src/auth/rate-limiter.ts:16-31 | Serving a list of requests gives at each the limiter's own answer |
| RateLimiters.KeysApart | apps/server/src/auth/rate-limiter.ts:16-31 | For any clock an answer depends on the calls of its own key alone |
| RateLimiters.PruneTwice | apps/server/src/auth/rate-limiter.ts:20-21 | Pruning at two times, in either order, is pruning at the later one |
| RateLimiters.BackwardsClockExample | apps/server/src/auth/rate-limiter.ts:16-31 | With a clock that runs backwards three calls pass in a window of two, by the limiter's own answers |

## Left out

- User interface, HTTP routes, the database, disk streams, sessions and tokens, signalling and telemetry.
- `IndexedDbChunkStore`: the store's meaning is taken from `MemoryChunkStore`.
- SHA-256 itself, hex printing, trimming and lower-casing of hashes, and UTF-8: hashes are byte strings compared for equality, ids on the wire are raw bytes.
- An empty hash string in a manifest, and the older `chunkHashes` field: the model's manifest maps an index to a hash or to none.
- Clocks and latencies: a timeout is an event that may come at any time for a chunk in flight. A timer that outlives its request is an event for a chunk that is in flight again or not at all.
- Callbacks are assumed not to throw and not to call back into the scheduler. `onError`, `onRetry`, `onCorruption`, `onOriginFallback` and the progress callback leave no trace in the model.
- A put becomes visible in the model's store when its promise resolves; `MemoryChunkStore` shows it one microtask earlier.
- The scheduler's local bitfield and its peers' are sets of indices; `Bitfields` proves that the packed bytes behave as such sets.
- `PeerMeshCoordinators.PeerMeshCoordinator.HandleDataMessage`: how an id's bytes become the store's string is a parameter, and the frames that the scheduler itself sends meanwhile are outcomes of its send oracle, not entries of a connection.
- `SchedulerLiveness.StallsExactly`: `encodeRequest` and `encodeHave` would throw inside the scheduler for a resource id of more than 255 bytes; the id of a scheduler is assumed to fit. `startDownload` does not start one whose id does not fit, since `encodeBitfield` throws first (`ResumeDownload`).
- `EndToEnd.AssembleDownload`: that nobody else writes the resource's chunks during the download is assumed.
- `SchedulerPotential.NeverFails`: the origin failing, lying, or a block overrunning are counted as setbacks, since nothing bounds their number.
- `SchedulerAtomic.AtomicRunIsRun`: atomic runs hold no `stop`; after it a late mismatch still starts an origin fetch, which the interleaved theorems cover.
- A second data channel on one connection, and `RTCPeerConnection` itself. Closing is immediate.
- The end-game mode and the retry with a different peer that comments describe: the code has neither.
- Numbers beyond 2^53, allocation failure, and file streams that fail.
- A chunk or block size of zero, with which the loops of the generator and of the seeder do not end, and a negative request limit, which refuses every call.
