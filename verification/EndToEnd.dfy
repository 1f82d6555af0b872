/** From the file on the server to the file that a downloader puts together. */
module EndToEnd {
  import opened Bitfields
  import opened BlockDelivery
  import opened BlockTransfer
  import opened Bytes
  import opened Decimals
  import opened Manifests
  import opened OrderedMaps
  import opened PeerMeshCoordinators
  import opened Results
  import opened SchedulerAtomic
  import opened SchedulerBytes
  import opened SchedulerExclusion
  import opened SchedulerLiveness
  import opened SchedulerModel
  import opened SchedulerPotential
  import opened SchedulerSafety
  import opened SchedulerTasks
  import opened Slicing
  import PeerRequests
  import SendQueues
  import Wire

  // ---------------------------------------------------------------- what the scheduler is given

  function ManifestFor(file: Bytes, chunkSize: nat, hash: Bytes -> Digest): Manifest
    requires chunkSize > 0
  {
    Expected(ManifestOf(file, chunkSize, hash))
  }

  lemma ManifestForAt(file: Bytes, chunkSize: nat, hash: Bytes -> Digest)
    requires chunkSize > 0
    ensures var m, parts := ManifestFor(file, chunkSize, hash), Slices(file, chunkSize);
      && m.total == |parts|
      && forall i: nat :: (i in m.expected <==> i < |parts|) && (i < |parts| ==> m.expected[i] == hash(parts[i]))
  {
  }

  /** No stored chunk has the hash of the file's chunk without being it. */
  ghost predicate NoCollision(store: map<nat, Bytes>, parts: seq<Bytes>, hash: Bytes -> Digest) {
    forall i: nat :: i < |parts| && i in store && hash(store[i]) == hash(parts[i]) ==> store[i] == parts[i]
  }

  /** Each possessed chunk is stored with the file's bytes. */
  ghost predicate HoldsSlices(s: Scheduler, parts: seq<Bytes>) {
    forall i: nat :: i in s.have ==> i < |parts| && i in s.store && s.store[i] == parts[i]
  }

  // ---------------------------------------------------------------- safety from the start

  /** Bookkeeping and agreement, spelled out for every state that a download can reach. */
  lemma ReachableStates(manifest: Manifest, have: set<nat>, store: map<nat, Bytes>, inputs: seq<Input>,
                        hash: Bytes -> Digest)
    requires ValidStore(manifest, have, store, hash)
    ensures var t := Run(Initial(manifest, have, store), inputs, hash);
      && have <= t.have
      && (forall c: nat :: c in t.have ==>
            c < manifest.total && c in t.store && c in manifest.expected && hash(t.store[c]) == manifest.expected[c])
      && (forall c: nat :: HaveSent(c) in t.log ==> c in t.have)
      && (forall c: nat :: c in t.have && c !in have ==> HaveSent(c) in t.log)
      && (Complete(t) && !Full(have, manifest.total) ==> DownloadComplete in t.log)
      && (DownloadComplete in t.log ==> Complete(t))
      && |t.inFlight.vals| <= 8
      && (forall c: nat :: c in t.inFlight.vals ==>
            && c < manifest.total && t.inFlight.vals[c].retries <= 2
            && t.inFlight.vals[c].peer in t.peers.vals)
      && t.reassembly.Keys <= t.inFlight.vals.Keys
  {
    hide Run, Full;
    var s := Initial(manifest, have, store);
    InitialReady(manifest, have, store, hash);
    RunSafe(s, inputs, hash);
    RunHeralded(s, inputs, hash);
  }

  /**
   * With each arrival handled in one step, possessed chunks, requests in flight and chunks at the
   * origin are disjoint, at most eight of the latter two together, and each chunk at the origin
   * has exactly one fetch.
   */
  lemma ReachableAtomicStates(manifest: Manifest, have: set<nat>, store: map<nat, Bytes>, inputs: seq<AtomicInput>,
                              hash: Bytes -> Digest)
    requires ValidStore(manifest, have, store, hash)
    ensures var t := AtomicRun(Initial(manifest, have, store), inputs, hash);
      && t.have !! t.inFlight.vals.Keys && t.have !! t.atOrigin && t.inFlight.vals.Keys !! t.atOrigin
      && |t.inFlight.vals.Keys| + |t.atOrigin| <= 8
      && (forall i :: 0 <= i < |t.tasks| ==>
            !t.tasks[i].fromP2P && t.tasks[i].phase == Fetching && t.tasks[i].chunk in t.atOrigin)
      && (forall c: nat :: c in t.atOrigin ==> exists i :: 0 <= i < |t.tasks| && t.tasks[i].chunk == c)
      && (forall i, j :: 0 <= i < j < |t.tasks| ==> t.tasks[i].chunk != t.tasks[j].chunk)
  {
    hide AtomicRun;
    var s := Initial(manifest, have, store);
    InitialReady(manifest, have, store, hash);
    RunPays(s, inputs, hash);
    AtomicRunSafe(s, inputs, hash);
    var t := AtomicRun(s, inputs, hash);
    forall c: nat | c in t.atOrigin ensures exists i :: 0 <= i < |t.tasks| && t.tasks[i].chunk == c {
      assert HasFetch(t, c);
    }
  }

  // ---------------------------------------------------------------- fidelity

  lemma {:induction false} JoinedSlices(store: map<nat, Bytes>, parts: seq<Bytes>, n: nat)
    requires n <= |parts| && forall i: nat :: i < n ==> i in store && store[i] == parts[i]
    ensures Joined(store, n) == Concat(parts[..n])
  {
    if n == 0 {
    } else {
      JoinedSlices(store, parts, n - 1);
      assert parts[..n][..n - 1] == parts[..n - 1];
    }
  }

  lemma SafeHoldsSlices(s: Scheduler, file: Bytes, chunkSize: nat, hash: Bytes -> Digest)
    requires chunkSize > 0 && s.manifest == ManifestFor(file, chunkSize, hash)
    requires Sound(s, hash) && NoCollision(s.store, Slices(file, chunkSize), hash)
    ensures HoldsSlices(s, Slices(file, chunkSize))
  {
    ManifestForAt(file, chunkSize, hash);
  }

  /**
   * End-to-end fidelity. For every file, every chunk size, every valid initial store and every
   * interleaving of what peers, timers, the origin, the hash and the store do: the possessed
   * chunks are the file's, and once all are possessed, or completion was reported, the stored
   * chunks, put together in order, are the file, with the manifest's whole-file hash.
   */
  lemma Fidelity(file: Bytes, chunkSize: nat, have: set<nat>, store: map<nat, Bytes>, inputs: seq<Input>,
                 hash: Bytes -> Digest)
    requires chunkSize > 0 && ValidStore(ManifestFor(file, chunkSize, hash), have, store, hash)
    requires NoCollision(Run(Initial(ManifestFor(file, chunkSize, hash), have, store), inputs, hash).store,
                         Slices(file, chunkSize), hash)
    ensures var g := ManifestOf(file, chunkSize, hash);
      var t := Run(Initial(ManifestFor(file, chunkSize, hash), have, store), inputs, hash);
      && HoldsSlices(t, Slices(file, chunkSize))
      && (Complete(t) || DownloadComplete in t.log ==>
            && (forall i :: 0 <= i < g.totalChunks ==> i in t.store)
            && Joined(t.store, g.totalChunks) == file
            && hash(Joined(t.store, g.totalChunks)) == g.fileHash)
  {
    hide Run, ValidStore, Slices;
    var m := ManifestFor(file, chunkSize, hash);
    var s := Initial(m, have, store);
    var parts := Slices(file, chunkSize);
    InitialReady(m, have, store, hash);
    RunSafe(s, inputs, hash);
    var t := Run(s, inputs, hash);
    SafeHoldsSlices(t, file, chunkSize, hash);
    RunHeralded(s, inputs, hash);
    if Complete(t) {
      ManifestForAt(file, chunkSize, hash);
      forall i: nat | i < |parts| ensures i in t.store && t.store[i] == parts[i] {
        assert i in t.have;
      }
      JoinedSlices(t.store, parts, |parts|);
      assert parts[..|parts|] == parts;
      SlicesJoin(file, chunkSize);
    }
  }

  /** The event completes a write. */
  predicate Puts(s: Scheduler, event: Event) {
    event.PutResolved? && Waits(s, event.task) && s.tasks[event.task].phase.Storing?
  }

  /** The chunk store after the writes of a run for the resource. */
  function ContentsAfter(contents: map<(string, nat), Bytes>, id: string, s: Scheduler, inputs: seq<Input>,
                         hash: Bytes -> Digest): map<(string, nat), Bytes>
  {
    if inputs == [] then contents
    else
      var front, last := inputs[..|inputs| - 1], inputs[|inputs| - 1];
      var before, t := ContentsAfter(contents, id, s, front, hash), Run(s, front, hash);
      if Puts(t, last.event) then
        var task := t.tasks[last.event.task];
        before[(id, task.chunk) := task.phase.data]
      else before
  }

  lemma PutStores(s: Scheduler, i: nat)
    requires Puts(s, PutResolved(i))
    ensures Stored(s, i).store == s.store[s.tasks[i].chunk := s.tasks[i].phase.data]
  {
  }

  /** The chunk store holds of the resource what the scheduler stored, and of others what it held. */
  lemma {:induction false} StoreMirrors(contents: map<(string, nat), Bytes>, id: string, s: Scheduler,
                                        inputs: seq<Input>, hash: Bytes -> Digest)
    requires OfResource(contents, id) == s.store
    ensures var after := ContentsAfter(contents, id, s, inputs, hash);
      && OfResource(after, id) == Run(s, inputs, hash).store
      && forall other :: other != id ==> OfResource(after, other) == OfResource(contents, other)
  {
    hide Step, Stored, OfResource;
    if inputs == [] {
    } else {
      var front, last := inputs[..|inputs| - 1], inputs[|inputs| - 1];
      var before, t := ContentsAfter(contents, id, s, front, hash), Run(s, front, hash);
      StoreMirrors(contents, id, s, front, hash);
      if Puts(t, last.event) {
        var task := t.tasks[last.event.task];
        StepResumes(t, last, hash);
        PutStores(t, last.event.task);
        forall other {
          PutOfResource(before, id, task.chunk, task.phase.data, other);
        }
      } else {
        OthersRecord(t, last, hash);
      }
    }
  }

  /**
   * What `assembleFile` returns once a run has reported completion, when the chunk store holds of
   * the resource what the writes of the run left there.
   */
  method AssembleDownload(coordinator: PeerMeshCoordinator, id: string, ghost file: Bytes, ghost chunkSize: nat,
                          ghost have: set<nat>, ghost contents: map<(string, nat), Bytes>, ghost inputs: seq<Input>,
                          hash: Bytes -> Digest)
    returns (r: Result<Option<AssembledFile>, nat>)
    requires coordinator.chunkStore.Valid() && chunkSize > 0
    requires coordinator.currentManifest.Some? && coordinator.currentManifest.value.resourceId == id
    requires coordinator.currentManifest.value.content == ManifestOf(file, chunkSize, hash)
    requires ValidStore(ManifestFor(file, chunkSize, hash), have, OfResource(contents, id), hash)
    requires var s := Initial(ManifestFor(file, chunkSize, hash), have, OfResource(contents, id));
      var t := Run(s, inputs, hash);
      && (Complete(t) || DownloadComplete in t.log)
      && NoCollision(t.store, Slices(file, chunkSize), hash)
      && OfResource(coordinator.chunkStore.contents, id) == OfResource(ContentsAfter(contents, id, s, inputs, hash), id)
    ensures r == Success(Some(AssembledFile(file, hash(file), true)))
  {
    hide Run, ValidStore, Slices, NoCollision, OfResource, ContentsAfter;
    ghost var store := OfResource(contents, id);
    Fidelity(file, chunkSize, have, store, inputs, hash);
    StoreMirrors(contents, id, Initial(ManifestFor(file, chunkSize, hash), have, store), inputs, hash);
    r := coordinator.AssembleFile(id, hash);
  }

  // ---------------------------------------------------------------- bytes

  /** The manifest's sizes of the chunks below `n` that were gained. */
  function GainedSizes(entries: seq<ManifestEntry>, have: set<nat>, had: set<nat>, n: nat): nat
    requires n <= |entries|
  {
    if n == 0 then 0
    else GainedSizes(entries, have, had, n - 1) + if n - 1 in have && n - 1 !in had then entries[n - 1].size else 0
  }

  lemma {:induction false} GainedAreSizes(s: Scheduler, parts: seq<Bytes>, had: set<nat>, hash: Bytes -> Digest, n: nat)
    requires HoldsSlices(s, parts) && n <= |parts| && s.have <= s.store.Keys
    ensures GainedBytes(s.store, s.have, had, n) == GainedSizes(EntriesOf(parts, hash), s.have, had, n)
  {
    if n == 0 {
    } else {
      GainedAreSizes(s, parts, had, hash, n - 1);
    }
  }

  lemma {:induction false} AllSizes(entries: seq<ManifestEntry>, have: set<nat>, n: nat)
    requires n <= |entries| && Full(have, n)
    ensures GainedSizes(entries, have, {}, n) == SumSizes(entries[..n])
  {
    if n == 0 {
    } else {
      AllSizes(entries, have, n - 1);
      assert entries[..n][..n - 1] == entries[..n - 1];
      assert n - 1 in have;
    }
  }

  /**
   * Byte conservation. In every atomic run the bytes reported from peers and from the origin are
   * together the manifest's sizes of the gained chunks; for a finished download from an empty
   * store they are the file's size.
   */
  lemma BytesConserved(file: Bytes, chunkSize: nat, had: set<nat>, store: map<nat, Bytes>, inputs: seq<AtomicInput>,
                       hash: Bytes -> Digest)
    requires chunkSize > 0 && ValidStore(ManifestFor(file, chunkSize, hash), had, store, hash)
    requires NoCollision(AtomicRun(Initial(ManifestFor(file, chunkSize, hash), had, store), inputs, hash).store,
                         Slices(file, chunkSize), hash)
    ensures var g := ManifestOf(file, chunkSize, hash);
      var t := AtomicRun(Initial(ManifestFor(file, chunkSize, hash), had, store), inputs, hash);
      && Distinct(Reported(t.log))
      && (forall c: nat :: c in Reported(t.log) <==> c in t.have && c !in had)
      && BytesFrom(t.log, true) + BytesFrom(t.log, false) == GainedSizes(g.chunks, t.have, had, |g.chunks|)
      && (had == {} && Complete(t) ==> BytesFrom(t.log, true) + BytesFrom(t.log, false) == g.fileSize == |file|)
  {
    hide AtomicRun, ValidStore, Slices, Distinct;
    var m := ManifestFor(file, chunkSize, hash);
    var s := Initial(m, had, store);
    var t := AtomicRun(s, inputs, hash);
    var parts, g := Slices(file, chunkSize), ManifestOf(file, chunkSize, hash);
    InitialReady(m, had, store, hash);
    AtomicRunSafe(s, inputs, hash);
    SafeHoldsSlices(t, file, chunkSize, hash);
    Conservation(m, had, store, inputs, hash);
    ManifestForAt(file, chunkSize, hash);
    GainedAreSizes(t, parts, had, hash, |parts|);
    if had == {} && Complete(t) {
      AllSizes(g.chunks, t.have, |g.chunks|);
      assert g.chunks[..|g.chunks|] == g.chunks;
      ManifestMatchesBounds(file, chunkSize, hash);
    }
  }

  // ---------------------------------------------------------------- honest senders

  /** `c` is possessed, stored as `data`, announced, and reported as from a peer or not. */
  ghost predicate Gained(s: Scheduler, c: nat, data: Bytes, fromP2P: bool) {
    && c in s.have && c in s.store && s.store[c] == data
    && HaveSent(c) in s.log && Completed(c, fromP2P, |data|) in s.log
  }

  /**
   * From a seeder's store to the downloader's: all blocks of a requested chunk, as frames in any
   * order, with any repeats and with harmless events between them, gain the chunk with the file's
   * bytes, whatever happens while they are hashed and written.
   */
  lemma SeederDelivers(s: Scheduler, id: Bytes, file: Bytes, chunkSize: nat, c: nat, size: nat, arrivals: seq<Arrival>,
                       last: nat, between: seq<Input>, later: seq<Input>, hash: Bytes -> Digest)
    requires chunkSize > 0 && s.manifest == ManifestFor(file, chunkSize, hash) && c < |Slices(file, chunkSize)|
    requires c in s.inFlight.vals && c !in s.reassembly
    requires |id| <= Wire.MAX_ID_LENGTH && c < Wire.U32_LIMIT && chunkSize < Wire.U32_LIMIT
    requires var chunk := Slices(file, chunkSize)[c];
      && size > 0 && InRange(chunk, size, Blocks(arrivals)) && last < |Slices(chunk, size)|
      && !HasAll(Blocks(arrivals), |Slices(chunk, size)|) && HasAll(Blocks(arrivals) + [last], |Slices(chunk, size)|)
      && Gentle(s, id, c, chunk, size, arrivals, hash)
    requires var t := Arrive(s, id, c, Slices(file, chunkSize)[c], size, arrivals, hash);
      Uninterrupted(ReceiveBlock(t, id, c, Slices(file, chunkSize)[c], size, last), between, later, hash, |t.tasks|)
    ensures var chunk := Slices(file, chunkSize)[c];
      var t := Arrive(s, id, c, chunk, size, arrivals, hash);
      Gained(Written(ReceiveBlock(t, id, c, chunk, size, last), between, later, hash, |t.tasks|), c, chunk, true)
  {
    hide Slices, Written, Uninterrupted, Arrive, ReceiveBlock, Gentle, Blocks, HasAll;
    var chunk := Slices(file, chunkSize)[c];
    var t := Arrive(s, id, c, chunk, size, arrivals, hash);
    SlicesNonEmpty(file, chunkSize, c);
    BlocksDeliverChunk(s, id, c, chunk, size, arrivals, last, hash);
    ManifestForAt(file, chunkSize, hash);
    Accepted(ReceiveBlock(t, id, c, chunk, size, last), between, later, hash, |t.tasks|);
  }

  /** The frames on the wire of the seeder's connection behind all that it held when the REQUEST came. */
  function AnsweredOn(q: SendQueues.Connection, lookup: PeerRequests.Lookup, throws: nat -> bool,
                      es: seq<SendQueues.Event>, n: nat): seq<Bytes>
  {
    var wire := SendQueues.Run(PeerRequests.Served(q, lookup, throws), es).wire;
    if |q.held| + n <= |wire| then wire[|q.held|..|q.held| + n] else []
  }

  /** The frames of a REQUEST's answer carry the blocks of the chunk that is stored under its names. */
  lemma AnswerCarries(contents: map<(string, nat), Bytes>, peer: PeerId, raw: Bytes, text: Bytes -> string, id: Bytes,
                      c: nat, q: SendQueues.Connection, throws: nat -> bool, es: seq<SendQueues.Event>, s: Scheduler,
                      arrivals: seq<Arrival>, hash: Bytes -> Digest)
    requires Wire.IsRequest(raw, id, c) && c < 0x1_0000_0000 && |id| <= Wire.MAX_ID_LENGTH
    requires (text(id), c) in contents && SendQueues.Kept(q) && SendQueues.Sendable(q)
    requires var lookup := PeerRequests.LookedUp(contents, peer, raw, text);
      lookup.Some? ==>
        var v := SendQueues.Run(PeerRequests.Served(q, lookup.value, throws), es);
        !v.isClosed && v.sendQueue == [] && SendQueues.Lossless(v)
    ensures var lookup := PeerRequests.LookedUp(contents, peer, raw, text);
      var chunk := contents[(text(id), c)];
      lookup.Some? &&
      var frames := AnsweredOn(q, lookup.value, throws, es, |Slices(chunk, 65536)|);
      && |frames| == |Slices(chunk, 65536)|
      && Carry(s, id, frames, arrivals, hash) == Arrive(s, id, c, chunk, 65536, arrivals, hash)
  {
    hide Wire.Headed, Wire.Holds, PeerRequests.LookedUp, SendQueues.Kept, SendQueues.Lossless, SendQueues.Run,
      SendQueues.SendAll, Answer, Carry, Arrive, Slices;
    PeerRequests.RequestLooksUp(contents, peer, raw, text, id, c);
    WireCarries(q, throws, es, s, id, c, contents[(text(id), c)], 65536, arrivals, hash);
  }

  lemma BlockLast(s: Scheduler, id: Bytes, c: nat, chunk: Bytes, frames: seq<Bytes>, arrivals: seq<Arrival>, last: nat,
                  hash: Bytes -> Digest)
    ensures Arrive(s, id, c, chunk, 65536, arrivals + [Block(last)], hash) ==
      ReceiveBlock(Arrive(s, id, c, chunk, 65536, arrivals, hash), id, c, chunk, 65536, last)
    ensures last < |frames| ==>
      Carry(s, id, frames, arrivals + [Block(last)], hash) ==
        ReceiveFrame(Carry(s, id, frames, arrivals, hash), id, frames[last])
  {
    hide ReceiveBlock, ReceiveFrame;
    assert (arrivals + [Block(last)])[..|arrivals|] == arrivals;
  }

  /**
   * From the frame of a REQUEST to the chunk in the downloader's store: the seeder looks the chunk up
   * and sends it block by block, wherever its channel throws; once nothing waits and nothing was
   * lost, the frames of the answer, read in any order with repeats and harmless events between, gain
   * the chunk with the file's bytes.
   */
  lemma RequestDelivers(contents: map<(string, nat), Bytes>, peer: PeerId, raw: Bytes, text: Bytes -> string,
                        q: SendQueues.Connection, throws: nat -> bool, es: seq<SendQueues.Event>,
                        s: Scheduler, id: Bytes, file: Bytes, chunkSize: nat, c: nat, arrivals: seq<Arrival>,
                        last: nat, between: seq<Input>, later: seq<Input>, hash: Bytes -> Digest)
    requires chunkSize > 0 && s.manifest == ManifestFor(file, chunkSize, hash) && c < |Slices(file, chunkSize)|
    requires c in s.inFlight.vals && c !in s.reassembly
    requires |id| <= Wire.MAX_ID_LENGTH && c < Wire.U32_LIMIT && chunkSize < Wire.U32_LIMIT
    requires Wire.IsRequest(raw, id, c)
    requires (text(id), c) in contents && contents[(text(id), c)] == Slices(file, chunkSize)[c]
    requires SendQueues.Kept(q) && SendQueues.Sendable(q)
    requires var lookup := PeerRequests.LookedUp(contents, peer, raw, text);
      lookup.Some? ==>
        var v := SendQueues.Run(PeerRequests.Served(q, lookup.value, throws), es);
        !v.isClosed && v.sendQueue == [] && SendQueues.Lossless(v)
    requires var chunk := Slices(file, chunkSize)[c];
      && InRange(chunk, 65536, Blocks(arrivals)) && last < |Slices(chunk, 65536)|
      && !HasAll(Blocks(arrivals), |Slices(chunk, 65536)|) && HasAll(Blocks(arrivals) + [last], |Slices(chunk, 65536)|)
      && Gentle(s, id, c, chunk, 65536, arrivals, hash)
    requires var t := Arrive(s, id, c, Slices(file, chunkSize)[c], 65536, arrivals, hash);
      Uninterrupted(ReceiveBlock(t, id, c, Slices(file, chunkSize)[c], 65536, last), between, later, hash, |t.tasks|)
    ensures var lookup := PeerRequests.LookedUp(contents, peer, raw, text);
      var chunk := Slices(file, chunkSize)[c];
      lookup.Some? &&
      var frames := AnsweredOn(q, lookup.value, throws, es, |Slices(chunk, 65536)|);
      last < |frames| &&
      var t := Carry(s, id, frames, arrivals, hash);
      Gained(Written(ReceiveFrame(t, id, frames[last]), between, later, hash, |t.tasks|), c, chunk, true)
  {
    hide Wire.IsRequest, PeerRequests.LookedUp, PeerRequests.Served, AnsweredOn, SendQueues.Kept, SendQueues.Lossless,
      SendQueues.Sendable, SendQueues.Run, Carry, Arrive, Slices, Written, Uninterrupted, ReceiveBlock, ReceiveFrame,
      Gentle, Blocks, HasAll, Gained;
    var chunk := Slices(file, chunkSize)[c];
    SeederDelivers(s, id, file, chunkSize, c, 65536, arrivals, last, between, later, hash);
    AnswerCarries(contents, peer, raw, text, id, c, q, throws, es, s, arrivals, hash);
    AnswerCarries(contents, peer, raw, text, id, c, q, throws, es, s, arrivals + [Block(last)], hash);
    var frames := AnsweredOn(q, PeerRequests.LookedUp(contents, peer, raw, text).value, throws, es,
                             |Slices(chunk, 65536)|);
    BlockLast(s, id, c, chunk, frames, arrivals, last, hash);
  }

  /** The range of the file that the origin streams for a chunk. */
  function Served(file: Bytes, chunkSize: nat, c: nat): Bytes
    requires chunkSize > 0 && c < CalculateTotalChunks(|file|, chunkSize)
  {
    BoundsTile(c, |file|, chunkSize);
    var b := CalculateChunkBounds(c, |file|, chunkSize);
    file[b.start..b.streamEnd + 1]
  }

  lemma ServedIsAuthentic(file: Bytes, chunkSize: nat, c: nat, hash: Bytes -> Digest)
    requires chunkSize > 0
    ensures ManifestFor(file, chunkSize, hash).total == CalculateTotalChunks(|file|, chunkSize)
    ensures c < CalculateTotalChunks(|file|, chunkSize) ==>
      Authentic(ManifestFor(file, chunkSize, hash), hash, c, Served(file, chunkSize, c))
  {
    hide CalculateTotalChunks, CalculateChunkBounds, ManifestOf, EntriesOf, Slices, SumSizes;
    ManifestMatchesBounds(file, chunkSize, hash);
  }

  /** The state when the origin's answer for task `i` has come, after `earlier`. */
  function Streamed(s: Scheduler, earlier: seq<Input>, data: Bytes, hash: Bytes -> Digest, i: nat): Scheduler {
    Fetched(Run(s, earlier, hash), MovedBy(s, earlier, hash, i), data)
  }

  lemma FetchedVerifies(s: Scheduler, i: nat, data: Bytes, hash: Bytes -> Digest)
    requires Waits(s, i) && s.tasks[i].phase.Fetching? && Authentic(s.manifest, hash, s.tasks[i].chunk, data)
    ensures var t := Fetched(s, i, data);
      Waits(t, i) && t.manifest == s.manifest && t.tasks[i] == s.tasks[i].(phase := Verifying(data))
  {
  }

  /**
   * What the origin streams for a chunk that was asked of it gains the chunk, whatever happens
   * before it answers and while its answer is hashed and written.
   */
  lemma OriginDelivers(s: Scheduler, file: Bytes, chunkSize: nat, i: nat, earlier: seq<Input>, between: seq<Input>,
                       later: seq<Input>, hash: Bytes -> Digest)
    requires chunkSize > 0 && s.manifest == ManifestFor(file, chunkSize, hash)
    requires Waits(s, i) && s.tasks[i].phase.Fetching? && !s.tasks[i].fromP2P
    requires s.tasks[i].chunk < CalculateTotalChunks(|file|, chunkSize) && LeftAlone(s, earlier, hash, i)
    requires Uninterrupted(Streamed(s, earlier, Served(file, chunkSize, s.tasks[i].chunk), hash, i), between, later,
                           hash, MovedBy(s, earlier, hash, i))
    ensures var c := s.tasks[i].chunk;
      var data := Served(file, chunkSize, c);
      Gained(Written(Streamed(s, earlier, data, hash, i), between, later, hash, MovedBy(s, earlier, hash, i)),
             c, data, false)
  {
    hide Run, Written, Uninterrupted, LeftAlone, MovedBy, Fetched, Served, ManifestFor, CalculateTotalChunks;
    var c, k := s.tasks[i].chunk, MovedBy(s, earlier, hash, i);
    RunMoves(s, earlier, hash, i);
    ServedIsAuthentic(file, chunkSize, c, hash);
    FetchedVerifies(Run(s, earlier, hash), k, Served(file, chunkSize, c), hash);
    Accepted(Streamed(s, earlier, Served(file, chunkSize, c), hash, i), between, later, hash, k);
  }

  // ---------------------------------------------------------------- a download that cannot fail

  /** The origin answers, with what it ought to stream, and no piece reaches past its chunk's end. */
  ghost predicate Honest(s: Scheduler, event: Atomic, file: Bytes, chunkSize: nat)
    requires chunkSize > 0
  {
    match event
    case Piece(c, offset, total, data) => !OverrunningPiece(s, c, offset, total, data)
    case FetchDone(i, data) =>
      Waits(s, i) && s.tasks[i].chunk < CalculateTotalChunks(|file|, chunkSize) ==>
        data == Served(file, chunkSize, s.tasks[i].chunk)
    case FetchFailed(i) => !Waits(s, i)
    case _ => true
  }

  ghost predicate HonestRun(s: Scheduler, inputs: seq<AtomicInput>, file: Bytes, chunkSize: nat, hash: Bytes -> Digest)
    requires chunkSize > 0
  {
    forall k :: 0 <= k < |inputs| ==> Honest(AtomicRun(s, inputs[..k], hash), inputs[k].event, file, chunkSize)
  }

  lemma ExpectedBelowTotal(file: Bytes, chunkSize: nat, hash: Bytes -> Digest)
    requires chunkSize > 0
    ensures forall c: nat :: c < ManifestFor(file, chunkSize, hash).total ==>
      c in ManifestFor(file, chunkSize, hash).expected
  {
    ManifestForAt(file, chunkSize, hash);
  }

  lemma HonestNoSetback(s: Scheduler, event: Atomic, file: Bytes, chunkSize: nat, hash: Bytes -> Digest)
    requires chunkSize > 0 && s.manifest == ManifestFor(file, chunkSize, hash) && Neat(s)
    requires Honest(s, event, file, chunkSize)
    ensures !SetsBack(s, event, hash)
  {
    hide ManifestFor, Served, OverrunningPiece, CalculateTotalChunks, Authentic;
    ExpectedBelowTotal(file, chunkSize, hash);
    match event
    case Piece(c, _, _, _) =>
      if c in s.inFlight.vals {
        RetriesBounded(s, c);
      }
    case FetchDone(i, _) =>
      if Waits(s, i) {
        ServedIsAuthentic(file, chunkSize, s.tasks[i].chunk, hash);
      }
    case _ =>
  }

  lemma {:induction false} HonestNoSetbacks(s: Scheduler, inputs: seq<AtomicInput>, file: Bytes, chunkSize: nat,
                                            hash: Bytes -> Digest)
    requires chunkSize > 0 && s.manifest == ManifestFor(file, chunkSize, hash) && Safe(s, hash)
    requires HonestRun(s, inputs, file, chunkSize, hash)
    ensures SetBack(s, inputs, hash) == 0
  {
    hide ManifestFor, Sound, Neat, AtomicStep, Honest, SetsBack;
    if inputs == [] {
    } else {
      var n := |inputs| - 1;
      forall k | 0 <= k < n
        ensures Honest(AtomicRun(s, inputs[..n][..k], hash), inputs[..n][k].event, file, chunkSize)
      {
        assert inputs[..n][..k] == inputs[..k];
      }
      HonestNoSetbacks(s, inputs[..n], file, chunkSize, hash);
      AtomicRunSafe(s, inputs[..n], hash);
      HonestNoSetback(AtomicRun(s, inputs[..n], hash), inputs[n].event, file, chunkSize, hash);
    }
  }

  lemma HonestNoOverruns(s: Scheduler, inputs: seq<AtomicInput>, file: Bytes, chunkSize: nat, hash: Bytes -> Digest)
    requires chunkSize > 0 && HonestRun(s, inputs, file, chunkSize, hash)
    ensures NoOverruns(s, inputs, hash)
  {
    hide AtomicRun, OverrunningPiece;
    forall k | 0 <= k < |inputs| && inputs[k].event.Piece?
      ensures var Piece(c, offset, total, data) := inputs[k].event;
        !OverrunningPiece(AtomicRun(s, inputs[..k], hash), c, offset, total, data)
    {
      assert Honest(AtomicRun(s, inputs[..k], hash), inputs[k].event, file, chunkSize);
    }
  }

  /** What the origin serves for task `i` lowers the potential. */
  ghost predicate ServedLowers(s: Scheduler, i: nat, file: Bytes, chunkSize: nat, sends: Sends, hash: Bytes -> Digest)
    requires chunkSize > 0 && Waits(s, i) && s.tasks[i].chunk < CalculateTotalChunks(|file|, chunkSize)
  {
    var answer := FetchDone(i, Served(file, chunkSize, s.tasks[i].chunk));
    Potential(AtomicStep(s, AtomicInput(answer, sends), hash)) < Potential(s)
  }

  lemma WaitsLower(s: Scheduler, file: Bytes, chunkSize: nat, sends: Sends, hash: Bytes -> Digest)
    requires chunkSize > 0 && s.manifest == ManifestFor(file, chunkSize, hash) && Safe(s, hash) && Exclusive(s)
    ensures forall c: nat :: c in s.inFlight.vals ==>
      Potential(AtomicStep(s, AtomicInput(Sync(TimedOut(c)), sends), hash)) < Potential(s)
    ensures forall i: nat :: i < |s.tasks| ==>
      s.tasks[i].chunk < CalculateTotalChunks(|file|, chunkSize) && ServedLowers(s, i, file, chunkSize, sends, hash)
  {
    hide ManifestFor, Sound, Neat, Exclusive, Potential, AtomicStep, Served, Authentic, CalculateTotalChunks;
    forall c: nat | c in s.inFlight.vals
      ensures Potential(AtomicStep(s, AtomicInput(Sync(TimedOut(c)), sends), hash)) < Potential(s)
    {
      TimeoutLowers(s, c, sends, hash);
    }
    forall i: nat | i < |s.tasks|
      ensures s.tasks[i].chunk < CalculateTotalChunks(|file|, chunkSize)
      ensures ServedLowers(s, i, file, chunkSize, sends, hash)
    {
      SafeInRange(s, i, hash);
      ServedIsAuthentic(file, chunkSize, s.tasks[i].chunk, hash);
      AnswerLowers(s, i, Served(file, chunkSize, s.tasks[i].chunk), sends, hash);
    }
  }

  /**
   * A download that cannot fail. While the origin answers honestly, then whatever the peers do
   * short of overrunning a chunk, the timeouts, lost requests, delivered and rejected chunks and
   * origin answers number at most five per missing chunk, and after that many the file is
   * complete. Until then a running download always has a request in flight, whose timeout lowers
   * the potential, or a fetch, whose honest answer does.
   */
  lemma HonestDownload(file: Bytes, chunkSize: nat, have: set<nat>, store: map<nat, Bytes>, inputs: seq<AtomicInput>,
                       sends: Sends, hash: Bytes -> Digest)
    requires chunkSize > 0 && ValidStore(ManifestFor(file, chunkSize, hash), have, store, hash)
    requires HonestRun(Initial(ManifestFor(file, chunkSize, hash), have, store), inputs, file, chunkSize, hash)
    ensures var s := Initial(ManifestFor(file, chunkSize, hash), have, store);
      var bound := 5 * |MissingBelow(have, s.manifest.total)|;
      var t := AtomicRun(s, inputs, hash);
      && Advanced(s, inputs, hash) <= bound
      && (Advanced(s, inputs, hash) == bound ==> Complete(t))
      && (t.running && !Complete(t) ==> |t.inFlight.vals| > 0 || t.tasks != [])
    ensures var t := AtomicRun(Initial(ManifestFor(file, chunkSize, hash), have, store), inputs, hash);
      && (forall c: nat :: c in t.inFlight.vals ==>
            Potential(AtomicStep(t, AtomicInput(Sync(TimedOut(c)), sends), hash)) < Potential(t))
      && (forall i: nat :: i < |t.tasks| ==>
            && t.tasks[i].chunk < CalculateTotalChunks(|file|, chunkSize)
            && ServedLowers(t, i, file, chunkSize, sends, hash))
  {
    hide ManifestFor, ValidStore, HonestRun, Safe, Exclusive, AtomicRun, NoOverruns, Potential, AtomicStep,
      ServedLowers, CalculateTotalChunks;
    var m := ManifestFor(file, chunkSize, hash);
    var s := Initial(m, have, store);
    InitialReady(m, have, store, hash);
    HonestNoSetbacks(s, inputs, file, chunkSize, hash);
    HonestNoOverruns(s, inputs, file, chunkSize, hash);
    NeverFails(m, have, store, inputs, hash);
    AtomicRunNeverStalls(s, inputs, hash);
    RunPays(s, inputs, hash);
    AtomicRunSafe(s, inputs, hash);
    WaitsLower(AtomicRun(s, inputs, hash), file, chunkSize, sends, hash);
  }
}
