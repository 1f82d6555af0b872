/**
 * The coordinator: it dispatches frames, serves chunks, begins a download and counts it, and puts
 * the stored chunks together to a file.
 */
module PeerMeshCoordinators {
  import opened Bitfields
  import opened Bytes
  import opened ChunkSchedulers
  import opened ChunkStores
  import opened Decimals
  import opened Manifests
  import opened OrderedMaps
  import opened PeerConnections
  import opened PeerFrames
  import opened PeerRequests
  import opened Results
  import opened SchedulerModel
  import opened SchedulerSafety
  import BlockTransfer
  import SchedulerBytes
  import SchedulerPeers
  import SchedulerPotential
  import SendQueues
  import Wire

  // ---------------------------------------------------------------- files and resources

  /** The manifest of a download: the resource's name, its bytes on the wire, and what was generated. */
  datatype ResourceManifest = ResourceManifest(resourceId: string, wireId: Bytes, content: GeneratedManifest)

  /** The part of a manifest that the scheduler reads. */
  function Expected(m: GeneratedManifest): Manifest {
    Manifest(m.totalChunks, map i: nat | i < |m.chunks| :: m.chunks[i].sha256)
  }

  /** The file that was put together, its hash, and whether the hash is the manifest's. */
  datatype AssembledFile = AssembledFile(blob: Bytes, fileHash: Digest, verified: bool)

  /** The first `n` chunks of a store, one after the other. */
  function Joined(store: map<nat, Bytes>, n: nat): Bytes
    requires forall i :: 0 <= i < n ==> i in store
  {
    if n == 0 then [] else Joined(store, n - 1) + store[n - 1]
  }

  /** The scheduler after the first `k` known bitfields were handed to it. */
  function Given(s: Scheduler, known: OrderedMap<PeerId, PeerBits>, k: nat, sends: Sends): Scheduler
    requires k <= |known.keys|
  {
    if k == 0 then s
    else UpdatePeerBitfield(Given(s, known, k - 1, sends), known.keys[k - 1], known.vals[known.keys[k - 1]], sends)
  }

  lemma {:induction false} GivenPeers(s: Scheduler, known: OrderedMap<PeerId, PeerBits>, k: nat, sends: Sends)
    requires k <= |known.keys|
    ensures forall j :: 0 <= j < k ==>
      && known.keys[j] in Given(s, known, k, sends).peers.vals
      && Given(s, known, k, sends).peers.vals[known.keys[j]] == known.vals[known.keys[j]]
  {
    hide UpdatePeerBitfield;
    if k == 0 {
    } else {
      GivenPeers(s, known, k - 1, sends);
      var p := known.keys[k - 1];
      SchedulerPeers.AnnouncedPeers(Given(s, known, k - 1, sends), p, known.vals[p], sends);
    }
  }

  lemma AllAgree(s: Scheduler, known: OrderedMap<PeerId, PeerBits>, sends: Sends)
    ensures Agree(known.vals.Keys, known, Given(s, known, |known.keys|, sends).peers)
  {
    hide Given;
    GivenPeers(s, known, |known.keys|, sends);
    forall p | p in known.vals.Keys ensures p in known.keys {
    }
  }

  lemma NoneGiven(s: Scheduler, known: OrderedMap<PeerId, PeerBits>, sends: Sends)
    ensures Given(s, known, 0, sends) == s
  {
  }

  lemma GivenMore(s: Scheduler, known: OrderedMap<PeerId, PeerBits>, k: nat, sends: Sends)
    requires k < |known.keys|
    ensures Given(s, known, k + 1, sends) ==
      UpdatePeerBitfield(Given(s, known, k, sends), known.keys[k], known.vals[known.keys[k]], sends)
  {
    hide UpdatePeerBitfield;
  }

  lemma StartKeepsPeers(s: Scheduler, sends: Sends)
    ensures Start(s, sends).peers == s.peers
  {
    hide ScheduleNext;
    SchedulerPeers.ScheduleNextKeepsPeers(s.(running := true), sends);
  }

  /** The indices of a listing. */
  function Listed(indices: seq<int>): set<nat> {
    set x | x in indices && x >= 0 :: x as nat
  }

  predicate OutOfRange(indices: seq<int>, total: nat) {
    exists x :: x in indices && !(0 <= x < total)
  }

  /** The chunks that a store holds of one resource. */
  ghost function OfResource(contents: map<(string, nat), Bytes>, id: string): (r: map<nat, Bytes>)
    ensures forall n: nat :: n in r <==> (id, n) in contents
    ensures forall n: nat :: n in r ==> r[n] == contents[(id, n)]
  {
    var ns := set p | p in contents && p.0 == id :: p.1;
    assert forall n: nat :: (id, n) in contents ==> (id, n).1 in ns;
    map n | n in ns :: contents[(id, n)]
  }

  /** `put` changes one chunk of one resource. */
  lemma PutOfResource(contents: map<(string, nat), Bytes>, id: string, n: nat, data: Bytes, other: string)
    ensures OfResource(contents[(id, n) := data], other) ==
      if other == id then OfResource(contents, id)[n := data] else OfResource(contents, other)
  {
  }

  lemma NoneSet(total: nat)
    ensures Members(Zeros(RequiredBytes(total)), total) == {}
  {
    forall i: nat | i < total ensures !Bit(Zeros(RequiredBytes(total)), i) {
      assert Zeros(RequiredBytes(total))[i / 8] == 0;
    }
  }

  lemma BitfieldEncodes(id: Bytes, total: nat, bits: Bytes)
    ensures Wire.Encode(Wire.Bitfield(id, total, bits)).Failure? <==> |id| > Wire.MAX_ID_LENGTH
  {
  }

  lemma AvailableAll(have: set<nat>, total: nat)
    requires forall n: nat :: n in have ==> n < total
    ensures (set i | i in AvailableBelow(have, total)) == have
  {
  }

  /** The scheduler of a download that begins with these bits, and knows these peers, none of which refuses. */
  ghost function Fresh(manifest: ResourceManifest, have: set<nat>, contents: map<(string, nat), Bytes>,
                       known: OrderedMap<PeerId, PeerBits>): Scheduler {
    var chunks := OfResource(contents, manifest.resourceId);
    SchedulerPotential.Initial(Expected(manifest.content), have, chunks).(
      peers := known, choked := map p | p in known.vals :: false)
  }

  lemma KeyKnown(known: OrderedMap<PeerId, PeerBits>, j: nat)
    requires j < |known.keys|
    ensures known.keys[j] in known.vals && known.keys[j] !in known.keys[..j]
  {
    assert known.keys[j] in known.vals.Keys;
  }

  /** The first `k` known peers, in order. */
  function Earliest(known: OrderedMap<PeerId, PeerBits>, k: nat): (r: OrderedMap<PeerId, PeerBits>)
    requires k <= |known.keys|
  {
    assert forall p :: p in known.keys[..k] ==> p in known.vals.Keys;
    Entries(known.keys[..k], map p | p in known.keys[..k] :: known.vals[p])
  }

  function Willing(known: OrderedMap<PeerId, PeerBits>, k: nat): map<PeerId, bool>
    requires k <= |known.keys|
  {
    map p | p in known.keys[..k] :: false
  }

  lemma OneIntroduced(known: OrderedMap<PeerId, PeerBits>, k: nat)
    requires k < |known.keys|
    ensures var p := known.keys[k];
      && p in known.vals && p !in Willing(known, k)
      && Earliest(known, k).Set(p, known.vals[p]) == Earliest(known, k + 1)
      && Willing(known, k)[p := false] == Willing(known, k + 1)
  {
    KeyKnown(known, k);
    assert known.keys[..k + 1] == known.keys[..k] + [known.keys[k]];
  }

  lemma NoneIntroduced(known: OrderedMap<PeerId, PeerBits>)
    ensures Earliest(known, 0) == Empty() && Willing(known, 0) == map[]
  {
  }

  lemma AllIntroduced(known: OrderedMap<PeerId, PeerBits>)
    ensures Earliest(known, |known.keys|) == known
    ensures Willing(known, |known.keys|) == map p | p in known.vals :: false
  {
    assert known.keys[..|known.keys|] == known.keys;
    assert forall p :: p in known.keys <==> p in known.vals.Keys;
  }

  lemma StoppedOnlyListens(s: Scheduler, p: PeerId, bits: PeerBits, sends: Sends)
    requires !s.running && p !in s.choked
    ensures UpdatePeerBitfield(s, p, bits, sends) == s.(peers := s.peers.Set(p, bits), choked := s.choked[p := false])
  {
    hide ScheduleNext;
  }

  /** The peers are known in the same order. */
  lemma {:induction false} GivenInOrder(s: Scheduler, known: OrderedMap<PeerId, PeerBits>, k: nat, sends: Sends)
    requires !s.running && s.peers == Empty() && s.choked == map[] && k <= |known.keys|
    ensures Given(s, known, k, sends) == s.(peers := Earliest(known, k), choked := Willing(known, k))
  {
    hide UpdatePeerBitfield, Earliest, Willing;
    if k == 0 {
      NoneIntroduced(known);
    } else {
      GivenInOrder(s, known, k - 1, sends);
      OneIntroduced(known, k - 1);
      var p := known.keys[k - 1];
      StoppedOnlyListens(Given(s, known, k - 1, sends), p, known.vals[p], sends);
    }
  }

  lemma GivenAll(manifest: ResourceManifest, have: set<nat>, contents: map<(string, nat), Bytes>,
                 known: OrderedMap<PeerId, PeerBits>, sends: Sends)
    ensures var chunks := OfResource(contents, manifest.resourceId);
      var initial := SchedulerPotential.Initial(Expected(manifest.content), have, chunks);
      Given(initial, known, |known.keys|, sends) == Fresh(manifest, have, contents, known)
  {
    hide Given, OfResource, Expected, Earliest, Willing;
    var chunks := OfResource(contents, manifest.resourceId);
    var initial := SchedulerPotential.Initial(Expected(manifest.content), have, chunks);
    GivenInOrder(initial, known, |known.keys|, sends);
    AllIntroduced(known);
  }

  /** A BITFIELD frame of the resource with these bits set. */
  ghost predicate IsBitfieldFrame(frame: Bytes, id: Bytes, total: nat, have: set<nat>) {
    exists bits :: Wire.Encode(Wire.Bitfield(id, total, bits)) == Success(frame)
      && |bits| == RequiredBytes(total) && Members(bits, total) == have
  }

  lemma InRangeListed(have: set<nat>, total: nat)
    ensures var available: seq<int> := AvailableBelow(have, total);
      !OutOfRange(available, total) && Listed(available) == set c | c in have && c < total
  {
  }

  lemma MakesGreeting(frames: seq<Bytes>, id: Bytes, total: nat, length: nat, bits: Bytes)
    requires |frames| == 2 && Wire.IsBitfield(frames[0], id, total, bits) && Wire.IsUnchoke(frames[1], id)
    requires |bits| == RequiredBytes(length)
    ensures IsGreeting(frames, id, total, length, Members(bits, length))
  {
  }

  /** No two peers share a connection. */
  ghost predicate Separate(peers: map<PeerId, WebRtcPeerConnection>) {
    forall p, q :: p in peers && q in peers && p != q ==> peers[p] != peers[q]
  }

  // ---------------------------------------------------------------- the object

  class PeerMeshCoordinator {
    const chunkStore: MemoryChunkStore
    var peers: map<PeerId, WebRtcPeerConnection>
    var peerBitfields: OrderedMap<PeerId, PeerBits>
    /** The peers whose bitfield object the scheduler holds as well. */
    var shared: set<PeerId>
    var currentManifest: Option<ResourceManifest>
    var scheduler: ChunkScheduler?
    /** The scheduler's resource, as its bytes on the wire. */
    var schedulerId: Bytes
    var bytesFromP2P: nat
    var bytesFromOrigin: nat
    var chunksFromP2P: nat
    var chunksFromOrigin: nat

    /** A shared bitfield has one value. */
    ghost predicate Valid()
      reads this, scheduler
    {
      if scheduler == null then shared == {} else Agree(shared, peerBitfields, scheduler.State().peers)
    }

    constructor (chunkStore: MemoryChunkStore)
      ensures this.chunkStore == chunkStore && scheduler == null && currentManifest == None && Valid()
    {
      this.chunkStore := chunkStore;
      peers, peerBitfields, shared, currentManifest := map[], Empty(), {}, None;
      scheduler, schedulerId := null, [];
      bytesFromP2P, bytesFromOrigin, chunksFromP2P, chunksFromOrigin := 0, 0, 0, 0;
    }

    ghost function CurrentTotal(): Option<nat>
      reads this
    {
      if currentManifest.Some? then Some(currentManifest.value.content.totalChunks) else None
    }

    ghost function HeldOf(peer: PeerId): Held
      reads this
    {
      Held(if peer in peerBitfields.vals then Some(peerBitfields.vals[peer].total) else CurrentTotal(), peer in shared)
    }

    /** What frames change. */
    ghost function View(): Mesh
      requires scheduler != null
      reads this, scheduler
    {
      Mesh(peerBitfields, shared, CurrentTotal(), scheduler.State())
    }

    method OnBitfield(peer: PeerId, id: Bytes, announced: PeerBits, sends: Sends)
      requires Valid()
      modifies `peerBitfields, `shared, if scheduler == null then {} else {scheduler}
      ensures Valid()
      ensures peerBitfields == old(peerBitfields).Set(peer, announced)
      ensures shared ==
        if scheduler != null && schedulerId == id then old(shared) + {peer} else old(shared) - {peer}
      ensures scheduler != null && schedulerId == id ==>
        scheduler.State() == UpdatePeerBitfield(old(scheduler.State()), peer, announced, sends)
      ensures scheduler != null && schedulerId != id ==> scheduler.State() == old(scheduler.State())
    {
      hide UpdatePeerBitfield, Agree;
      if scheduler != null {
        AgreeElsewhere(shared, peerBitfields, scheduler.State().peers, peer, announced);
      }
      peerBitfields := peerBitfields.Set(peer, announced);
      if scheduler != null && schedulerId == id {
        SchedulerPeers.AnnouncedPeers(scheduler.State(), peer, announced, sends);
        scheduler.UpdatePeerBitfield(peer, announced, sends);
        shared := shared + {peer};
      } else {
        shared := shared - {peer};
      }
    }

    /** A peer without a bitfield gets one of the current manifest's length. */
    method MeetPeer(peer: PeerId)
      requires Valid()
      modifies `peerBitfields
      ensures Valid() && peerBitfields == Met(old(peerBitfields), CurrentTotal(), peer)
      ensures peer in shared ==>
        && scheduler != null && peer in peerBitfields.vals
        && peer in scheduler.peerBitfields.vals && scheduler.peerBitfields.vals[peer] == peerBitfields.vals[peer]
    {
      hide Agree;
      if peer in shared {
        AgreeShared(shared, peerBitfields, scheduler.State().peers, peer);
      }
      if peer !in peerBitfields.vals && currentManifest.Some? {
        var none := PeerBits(currentManifest.value.content.totalChunks, {});
        if scheduler != null {
          AgreeElsewhere(shared, peerBitfields, scheduler.State().peers, peer, none);
        }
        peerBitfields := peerBitfields.Set(peer, none);
      }
    }

    /** A bit of the coordinator's own bitfield, which the scheduler may hold as well. */
    method MarkBit(peer: PeerId, c: nat)
      requires Valid() && peer in peerBitfields.vals && c < peerBitfields.vals[peer].total
      modifies `peerBitfields, if scheduler == null then {} else {scheduler}
      ensures Valid()
      ensures var bits := old(peerBitfields).vals[peer];
        peerBitfields == old(peerBitfields).Set(peer, bits.(bits := bits.bits + {c}))
      ensures scheduler != null ==>
        scheduler.State() ==
          if peer in shared then MarkShared(old(scheduler.State()), peer, c) else old(scheduler.State())
    {
      hide Agree, MarkShared;
      var bits := peerBitfields.vals[peer];
      var marked := bits.(bits := bits.bits + {c});
      if peer in shared {
        AgreeShared(shared, peerBitfields, scheduler.State().peers, peer);
        SchedulerPeers.SharedPeers(scheduler.State(), peer, c);
        assert shared + {peer} == shared;
      }
      if scheduler != null {
        AgreeElsewhere(shared, peerBitfields, scheduler.State().peers, peer, marked);
      }
      peerBitfields := peerBitfields.Set(peer, marked);
      if peer in shared {
        scheduler.BitfieldMarked(peer, c);
      }
    }

    /** `noted` says that the index is not beyond the bitfield, if there is one. */
    method NoteHave(peer: PeerId, c: nat) returns (noted: bool)
      requires Valid()
      modifies `peerBitfields, if scheduler == null then {} else {scheduler}
      ensures Valid()
      ensures noted == InBounds(old(HeldOf(peer)).bounds, c)
      ensures peerBitfields == HaveNoted(old(peerBitfields), CurrentTotal(), peer, c)
      ensures scheduler != null ==>
        scheduler.State() ==
          if noted && peer in shared then MarkShared(old(scheduler.State()), peer, c) else old(scheduler.State())
    {
      hide Agree, MarkShared, Met;
      MetBound(peerBitfields, CurrentTotal(), peer);
      MeetPeer(peer);
      if peer in peerBitfields.vals {
        if c >= peerBitfields.vals[peer].total {
          return false;
        }
        MarkBit(peer, c);
      }
      return true;
    }

    method OnHave(peer: PeerId, id: Bytes, c: nat, sends: Sends)
      requires Valid()
      modifies `peerBitfields, if scheduler == null then {} else {scheduler}
      ensures Valid()
      ensures peerBitfields == HaveNoted(old(peerBitfields), CurrentTotal(), peer, c)
      ensures scheduler != null && !InBounds(old(HeldOf(peer)).bounds, c) ==>
        scheduler.State() == old(scheduler.State())
      ensures scheduler != null && InBounds(old(HeldOf(peer)).bounds, c) && schedulerId == id ==>
        scheduler.State() == UpdatePeerHave(old(scheduler.State()), peer, c, sends)
      ensures scheduler != null && InBounds(old(HeldOf(peer)).bounds, c) && schedulerId != id ==>
        scheduler.State() ==
          if peer in shared then MarkShared(old(scheduler.State()), peer, c) else old(scheduler.State())
    {
      hide UpdatePeerHave, MarkShared, Agree, HaveNoted;
      if peer in shared {
        AgreeShared(shared, peerBitfields, scheduler.State().peers, peer);
      }
      var noted := NoteHave(peer, c);
      if noted && scheduler != null && schedulerId == id {
        if peer in shared {
          MarkedTwice(old(scheduler.State()), peer, c, sends);
        }
        HaveKeepsAgreement(shared, peerBitfields, scheduler.State(), peer, c, sends);
        var _ := scheduler.UpdatePeerHave(peer, c, sends);
      }
    }

    method OnChoke(peer: PeerId, id: Bytes, choked: bool, sends: Sends)
      requires Valid()
      modifies if scheduler == null then {} else {scheduler}
      ensures Valid()
      ensures scheduler != null ==>
        scheduler.State() ==
          if schedulerId == id then SetPeerChoked(old(scheduler.State()), peer, choked, sends)
          else old(scheduler.State())
    {
      hide SetPeerChoked, Agree;
      if scheduler != null && schedulerId == id {
        SchedulerPeers.ChokePeers(scheduler.State(), peer, choked, sends);
        scheduler.SetPeerChoked(peer, choked, sends);
      }
    }

    /** The REQUEST branch behind its `await`. Reports whether encoding threw. */
    method AnswerRequest(lookup: Lookup, throws: nat -> bool) returns (threw: bool)
      modifies if lookup.peer in peers then {peers[lookup.peer]} else {}
      ensures lookup.peer in peers ==>
        peers[lookup.peer].State() == Served(old(peers[lookup.peer].State()), lookup, throws)
      ensures threw <==>
        && lookup.chunkData.Some? && lookup.chunkData.value != [] && |lookup.id| > Wire.MAX_ID_LENGTH
        && lookup.peer in peers && old(peers[lookup.peer].channel) == SendQueues.Open
      ensures var found := lookup.chunkData.Some? && |lookup.id| <= 255;
        lookup.peer in peers && found && old(SendQueues.Sendable(peers[lookup.peer].State())) ==>
          InBlocks(Beyond(peers[lookup.peer].held, old(peers[lookup.peer].held)), lookup.id, lookup.index,
                   lookup.chunkData.value)
    {
      hide InBlocks, SendQueues.SendAll, BlockTransfer.Answer;
      if lookup.peer in peers {
        ServedInBlocks(peers[lookup.peer].State(), lookup, throws);
      }
      if lookup.chunkData.Some? && lookup.peer in peers {
        var connection := peers[lookup.peer];
        var open := connection.IsChannelOpen();
        if open {
          threw := BlockTransfer.ServeRequest(lookup.id, lookup.index, lookup.chunkData.value, P2P_BLOCK_SIZE,
                                              connection, throws);
          return;
        }
      }
      return false;
    }

    /** A message that is no REQUEST. A throw leaves the handler at once. */
    method HandleUpdate(peer: PeerId, ghost raw: Bytes, message: Wire.WireMessage, sends: Sends, hash: Bytes -> Digest)
      requires Valid() && Wire.DecodeMessage(raw) == Success(message) && !message.Request?
      modifies `peerBitfields, `shared, if scheduler == null then {} else {scheduler}
      ensures Valid()
      ensures scheduler != null ==>
        && scheduler.State() ==
             AfterFrame(old(scheduler.State()), peer, raw, schedulerId, old(HeldOf(peer)), sends, hash)
        && shared == SharedAfter(old(shared), peer, raw, schedulerId)
      ensures peerBitfields == BitfieldsAfter(old(peerBitfields), CurrentTotal(), peer, raw)
    {
      hide Wire.DecodeMessage, Start, Stop, UpdatePeerBitfield, UpdatePeerHave, MarkShared, SetPeerChoked, RemovePeer,
        HandleTimeout, HandlePiece, HaveNoted, Agree;
      DecodedFields(raw);
      match message
      case Bitfield(id, total, bits) => OnBitfield(peer, id, PeerBits(total, Members(bits, total)), sends);
      case Have(id, c) => OnHave(peer, id, c, sends);
      case Piece(id, c, offset, total, data) =>
        if scheduler != null && schedulerId == id {
          SchedulerPeers.PieceKeepsPeers(scheduler.State(), c, offset, total, data);
          var _ := scheduler.HandlePiece(c, offset, total, data);
        }
      case Choke(id) => OnChoke(peer, id, true, sends);
      case Unchoke(id) => OnChoke(peer, id, false, sends);
    }

    /** `text` decodes an id. A REQUEST is looked up, and goes on in `AnswerRequest`. */
    method HandleDataMessage(peer: PeerId, raw: Bytes, sends: Sends, text: Bytes -> string, hash: Bytes -> Digest)
      returns (lookup: Option<Lookup>)
      requires Valid() && chunkStore.Valid()
      modifies `peerBitfields, `shared, if scheduler == null then {} else {scheduler}
      ensures Valid()
      ensures scheduler != null ==>
        && scheduler.State() ==
             AfterFrame(old(scheduler.State()), peer, raw, schedulerId, old(HeldOf(peer)), sends, hash)
        && shared == SharedAfter(old(shared), peer, raw, schedulerId)
      ensures peerBitfields == BitfieldsAfter(old(peerBitfields), CurrentTotal(), peer, raw)
      ensures scheduler != null ==> View() == Next(old(View()), Frame(peer, raw, sends), schedulerId, hash)
      ensures lookup == LookedUp(chunkStore.contents, peer, raw, text)
      ensures var r := Wire.DecodeMessage(raw);
        && (lookup.Some? <==> r.Success? && r.value.Request?)
        && (lookup.Some? ==>
              && r.value.chunk >= 0
              && Finds(lookup.value, chunkStore.contents, peer, r.value.id, text(r.value.id), r.value.chunk))
    {
      hide Wire.DecodeMessage, Agree, Step, Finds;
      LooksUpExactly(chunkStore.contents, peer, raw, text);
      var r := Wire.DecodeMessage(raw);
      if r.Failure? {
        return None;
      }
      if r.value.Request? {
        DecodedFields(raw);
        var chunkData := chunkStore.Get(text(r.value.id), r.value.chunk);
        return Some(Lookup(peer, r.value.id, r.value.chunk, chunkData));
      }
      HandleUpdate(peer, raw, r.value, sends, hash);
      return None;
    }

    /**
     * A peer's channel has opened: it is told the scheduler's bits under the name of the current
     * manifest, which is another resource's than the scheduler's while a download begins. Reports
     * whether encoding threw, and the frames.
     */
    method HandleChannelOpen(peer: PeerId, throws: nat -> bool) returns (threw: bool, greeting: seq<Bytes>)
      requires Valid()
      modifies if peer in peers then {peers[peer]} else {}
      ensures peer in peers ==> peers[peer].State() == SendQueues.SendAll(old(peers[peer].State()), greeting, throws)
      ensures var greets := peer in peers && currentManifest.Some? && scheduler != null;
        && (threw <==> greets && |currentManifest.value.wireId| > 255) && (greeting == [] <==> !greets || threw)
        && (greeting != [] ==>
              var manifest, total := currentManifest.value, scheduler.manifest.total;
              IsGreeting(greeting, manifest.wireId, manifest.content.totalChunks, total,
                         set c | c in scheduler.localBitfield && c < total))
    {
      hide SendQueues.Send, IsGreeting, Wire.IsBitfield, Wire.IsUnchoke, Members, Agree;
      threw, greeting := false, [];
      if peer !in peers || currentManifest.None? || scheduler == null {
        return;
      }
      var total, manifest, connection := scheduler.manifest.total, currentManifest.value, peers[peer];
      var bits := PackedBits(scheduler.localBitfield, total);
      var first := Wire.EncodeBitfield(manifest.wireId, manifest.content.totalChunks, bits);
      if first.Failure? {
        return true, [];
      }
      var second := Wire.EncodeUnchoke(manifest.wireId);
      SendQueues.SendOne(connection.State(), [], first.value, throws);
      SendQueues.SendOne(connection.State(), [first.value], second.value, throws);
      var _ := connection.Send(first.value, throws(0));
      var _ := connection.Send(second.value, throws(1));
      greeting := [first.value, second.value];
      MakesGreeting(greeting, manifest.wireId, manifest.content.totalChunks, total, bits);
    }

    /** The bytes of the scheduler's bitfield. */
    method PackedBits(have: set<nat>, total: nat) returns (bits: Bytes)
      ensures |bits| == RequiredBytes(total) && Members(bits, total) == set c | c in have && c < total
    {
      hide Members;
      var available := AvailableBelow(have, total);
      InRangeListed(have, total);
      var local := LoadBitfield(available, total);
      bits := local.ToBytes();
    }

    method DropConnection(peer: PeerId)
      modifies `peers, if peer in peers then {peers[peer]} else {}
      ensures peers == old(peers) - {peer}
      ensures peer in old(peers) ==> old(peers)[peer].State() == SendQueues.Close(old(peers[peer].State()))
    {
      hide SendQueues.Close;
      if peer in peers {
        peers[peer].Close();
        peers := peers - {peer};
      }
    }

    /** The bitfields that both sides hold for the peer are dropped. */
    method ForgetBitfields(peer: PeerId, sends: Sends)
      requires Valid()
      modifies `peerBitfields, `shared, if scheduler == null then {} else {scheduler}
      ensures Valid()
      ensures peerBitfields == old(peerBitfields).Delete(peer) && shared == old(shared) - {peer}
      ensures scheduler != null ==> scheduler.State() == RemovePeer(old(scheduler.State()), peer, sends)
    {
      hide RemovePeer, Agree;
      if scheduler != null {
        AgreeElsewhere(shared, peerBitfields, scheduler.State().peers, peer, PeerBits(0, {}));
        SchedulerPeers.RemovedPeers(scheduler.State(), peer, sends);
      }
      peerBitfields := peerBitfields.Delete(peer);
      shared := shared - {peer};
      if scheduler != null {
        scheduler.RemovePeer(peer, sends);
      }
    }

    method HandlePeerLeft(peer: PeerId, sends: Sends)
      requires Valid()
      modifies this, if scheduler == null then {} else {scheduler}, if peer in peers then {peers[peer]} else {}
      ensures Valid() && scheduler == old(scheduler)
      ensures peers == old(peers) - {peer} && peerBitfields == old(peerBitfields).Delete(peer)
      ensures peer in old(peers) ==> old(peers)[peer].State() == SendQueues.Close(old(peers[peer].State()))
      ensures scheduler != null ==> scheduler.State() == RemovePeer(old(scheduler.State()), peer, sends)
      ensures scheduler != null ==>
        forall hash: Bytes -> Digest :: View() == Next(old(View()), Left(peer, sends), schedulerId, hash)
    {
      hide RemovePeer, Agree, SendQueues.Close;
      DropConnection(peer);
      ForgetBitfields(peer, sends);
    }

    // -------------------------------------------------------------- downloads

    /** The bitfield of the listed indices: null where one makes `Bitfield.set` throw. */
    method LoadBitfield(available: seq<int>, total: nat) returns (local: Bitfield?)
      ensures local == null <==> OutOfRange(available, total)
      ensures local != null ==>
        && fresh(local) && fresh(local.bytes) && local.Valid() && local.totalChunks == total
        && local.Contents() == Listed(available)
    {
      hide Members;
      var bitfield := new Bitfield(total, Zeros(RequiredBytes(total)));
      NoneSet(total);
      for i := 0 to |available|
        invariant fresh(bitfield) && fresh(bitfield.bytes) && bitfield.Valid() && bitfield.totalChunks == total
        invariant forall n: nat :: n in bitfield.Contents() <==> n in available[..i]
        invariant forall j :: 0 <= j < i ==> 0 <= available[j] < total
      {
        assert available[i] in available;
        var threw := bitfield.Set(available[i]);
        if threw {
          return null;
        }
      }
      assert available[..|available|] == available;
      return bitfield;
    }

    /** That bitfield as the scheduler and as the wire take it, and whether it is complete. */
    method ReadBitfield(available: seq<int>, total: nat)
      returns (threw: bool, have: set<nat>, bits: Bytes, complete: bool)
      ensures threw <==> OutOfRange(available, total)
      ensures !threw ==>
        && have == Listed(available) && (complete <==> Full(have, total))
        && |bits| == RequiredBytes(total) && Members(bits, total) == have
    {
      hide Members, Full, Listed, OutOfRange;
      threw, have, bits, complete := true, {}, [], false;
      var local := LoadBitfield(available, total);
      if local != null {
        var indices := local.GetAvailableIndices();
        have := set i | i in indices;
        AvailableAll(local.Contents(), total);
        complete := local.IsComplete();
        bits := local.ToBytes();
        threw := false;
      }
    }

    /** What a scheduler of the resource sees of the store. */
    method LoadChunks(id: string) returns (chunks: map<nat, Bytes>)
      requires chunkStore.Valid()
      ensures chunks == OfResource(chunkStore.contents, id)
    {
      hide MemoryChunkStore.Valid, ReadAll, Shadowed, MakeKey;
      var indices := chunkStore.GetAvailableChunks(id);
      forall n: nat | (id, n) in chunkStore.contents ensures n in indices {
        OwnListed(chunkStore.storage.keys, id, n);
      }
      chunks := map[];
      for i := 0 to |indices|
        invariant forall n: nat :: n in chunks <==> n in indices[..i] && (id, n) in chunkStore.contents
        invariant forall n: nat :: n in chunks ==> chunks[n] == chunkStore.contents[(id, n)]
      {
        assert indices[..i + 1] == indices[..i] + [indices[i]];
        if indices[i] >= 0 {
          var chunk := chunkStore.Get(id, indices[i]);
          if chunk.Some? {
            chunks := chunks[indices[i] := chunk.value];
          }
        }
      }
      assert indices[..|indices|] == indices;
    }

    /** A new scheduler with the bitfields of all known peers, not started yet. */
    method CreateScheduler(manifest: ResourceManifest, have: set<nat>, chunks: map<nat, Bytes>, sends: Sends)
      modifies `scheduler, `schedulerId, `shared
      ensures Valid() && scheduler != null && fresh(scheduler) && schedulerId == manifest.wireId
      ensures shared == peerBitfields.vals.Keys
      ensures scheduler.State() ==
        Given(SchedulerPotential.Initial(Expected(manifest.content), have, chunks), peerBitfields,
              |peerBitfields.keys|, sends)
    {
      hide Given, UpdatePeerBitfield, Agree;
      var created := new ChunkScheduler(Expected(manifest.content), chunks, have);
      ghost var initial := created.State();
      NoneGiven(initial, peerBitfields, sends);
      for k := 0 to |peerBitfields.keys|
        invariant fresh(created) && peerBitfields == old(peerBitfields)
        invariant created.State() == Given(initial, peerBitfields, k, sends)
      {
        GivenMore(initial, peerBitfields, k, sends);
        var p := peerBitfields.keys[k];
        created.UpdatePeerBitfield(p, peerBitfields.vals[p], sends);
      }
      AllAgree(initial, peerBitfields, sends);
      scheduler, schedulerId, shared := created, manifest.wireId, peerBitfields.vals.Keys;
    }

    /** A frame for every open channel; `throws(p)` tells of the channel of `p`. */
    method Broadcast(frame: Bytes, throws: PeerId -> bool)
      requires Separate(peers)
      modifies peers.Values
      ensures forall p :: p in peers ==>
        peers[p].State() == SendQueues.Send(old(peers[p].State()), frame, throws(p))
    {
      hide SendQueues.Send, WebRtcPeerConnection.State;
      var rest := peers.Keys;
      while rest != {}
        invariant rest <= peers.Keys
        invariant forall p :: p in peers ==>
          peers[p].State() ==
            if p in rest then old(peers[p].State()) else SendQueues.Send(old(peers[p].State()), frame, throws(p))
        decreases |rest|
      {
        var p :| p in rest;
        assert peers[p] in peers.Values;
        var open := peers[p].IsChannelOpen();
        if open {
          var _ := peers[p].Send(frame, throws(p));
        } else {
          SendQueues.NotOpenStays(peers[p].State(), frame, throws(p));
        }
        rest := rest - {p};
      }
    }

    /** A running download is stopped, and the stored chunks are listed. */
    method StartDownload(manifest: ResourceManifest) returns (available: seq<int>)
      requires chunkStore.Valid() && Valid()
      modifies `currentManifest, if scheduler == null then {} else {scheduler}
      ensures Valid() && currentManifest == Some(manifest)
      ensures scheduler != null ==> scheduler.State() == Stop(old(scheduler.State()))
      ensures scheduler != null ==>
        forall hash: Bytes -> Digest ::
          View() == Next(old(View()), Begun(manifest.content.totalChunks), schedulerId, hash)
      ensures forall x :: x in available <==> x in ReadAll(chunkStore.storage.keys, manifest.resourceId)
      ensures forall n: nat :: (manifest.resourceId, n) in chunkStore.contents ==> n in available
      ensures !Shadowed(chunkStore.storage.keys, manifest.resourceId) ==>
        forall n: nat :: n in available <==> (manifest.resourceId, n) in chunkStore.contents
    {
      hide MemoryChunkStore.Valid, ReadAll, Shadowed, MakeKey, Agree;
      if scheduler != null {
        scheduler.Stop();
      }
      currentManifest := Some(manifest);
      available := chunkStore.GetAvailableChunks(manifest.resourceId);
      forall n: nat | (manifest.resourceId, n) in chunkStore.contents ensures n in available {
        OwnListed(chunkStore.storage.keys, manifest.resourceId, n);
      }
    }

    /** The scheduler is created, the BITFIELD broadcast, and the scheduler started, unless encoding throws. */
    method BeginScheduler(manifest: ResourceManifest, have: set<nat>, bits: Bytes, sends: Sends, throws: PeerId -> bool)
      returns (frame: Option<Bytes>)
      requires chunkStore.Valid() && Separate(peers)
      requires |bits| == RequiredBytes(manifest.content.totalChunks)
      requires Members(bits, manifest.content.totalChunks) == have
      modifies `scheduler, `schedulerId, `shared, peers.Values
      ensures Valid() && (frame.None? <==> |manifest.wireId| > Wire.MAX_ID_LENGTH)
      ensures scheduler != null && fresh(scheduler) && schedulerId == manifest.wireId
      ensures shared == peerBitfields.vals.Keys
      ensures var first := Fresh(manifest, have, chunkStore.contents, peerBitfields);
        scheduler.State() == if frame.None? then first else Start(first, sends)
      ensures frame.Some? ==> IsBitfieldFrame(frame.value, manifest.wireId, manifest.content.totalChunks, have)
      ensures forall p :: p in peers ==>
        peers[p].State() ==
          if frame.None? then old(peers[p].State())
          else SendQueues.Send(old(peers[p].State()), frame.value, throws(p))
    {
      hide MemoryChunkStore.Valid, Given, Fresh, Start, Agree, Expected, OfResource, Wire.Encode, SendQueues.Send,
        Members;
      var chunks := LoadChunks(manifest.resourceId);
      CreateScheduler(manifest, have, chunks, sends);
      GivenAll(manifest, have, chunkStore.contents, peerBitfields, sends);
      var encoded := Wire.EncodeBitfield(manifest.wireId, manifest.content.totalChunks, bits);
      BitfieldEncodes(manifest.wireId, manifest.content.totalChunks, bits);
      if encoded.Failure? {
        return None;
      }
      Broadcast(encoded.value, throws);
      StartKeepsPeers(scheduler.State(), sends);
      scheduler.Start(sends);
      return Some(encoded.value);
    }

    /**
     * Behind the `await` on the listing, whatever happened meanwhile. Reports whether loading or
     * encoding threw, and the frame that was broadcast.
     */
    method ResumeDownload(manifest: ResourceManifest, available: seq<int>, sends: Sends, throws: PeerId -> bool)
      returns (threw: bool, frame: Option<Bytes>)
      requires chunkStore.Valid() && Valid() && Separate(peers)
      modifies `scheduler, `schedulerId, `shared, `bytesFromP2P, `bytesFromOrigin, `chunksFromP2P, `chunksFromOrigin,
        peers.Values
      ensures Valid()
      ensures var total, have := manifest.content.totalChunks, Listed(available);
        if OutOfRange(available, total) then threw && frame.None? && scheduler == old(scheduler)
        else if Full(have, total) then !threw && frame.None? && scheduler == old(scheduler)
        else
          var first := Fresh(manifest, have, chunkStore.contents, peerBitfields);
          && (threw <==> |manifest.wireId| > Wire.MAX_ID_LENGTH) && (threw <==> frame.None?)
          && scheduler != null && fresh(scheduler) && schedulerId == manifest.wireId
          && shared == peerBitfields.vals.Keys
          && bytesFromP2P == bytesFromOrigin == chunksFromP2P == chunksFromOrigin == 0
          && (frame.Some? ==> IsBitfieldFrame(frame.value, manifest.wireId, total, have))
          && scheduler.State() == if threw then first else Start(first, sends)
      ensures forall p :: p in peers ==>
        peers[p].State() ==
          if frame.None? then old(peers[p].State())
          else SendQueues.Send(old(peers[p].State()), frame.value, throws(p))
    {
      hide MemoryChunkStore.Valid, Fresh, Start, Agree, Full, Listed, OutOfRange, IsBitfieldFrame, SendQueues.Send,
        WebRtcPeerConnection.State, ChunkScheduler.State;
      var total := manifest.content.totalChunks;
      var loadThrew, have, bits, complete := ReadBitfield(available, total);
      if loadThrew {
        return true, None;
      }
      bytesFromP2P, bytesFromOrigin, chunksFromP2P, chunksFromOrigin := 0, 0, 0, 0;
      if complete {
        return false, None;
      }
      frame := BeginScheduler(manifest, have, bits, sends, throws);
      threw := frame.None?;
    }

    /** The callback `onChunkCompleted`. */
    method OnChunkCompleted(fromP2P: bool, byteLength: nat)
      modifies `bytesFromP2P, `chunksFromP2P, `bytesFromOrigin, `chunksFromOrigin
      ensures bytesFromP2P == old(bytesFromP2P) + if fromP2P then byteLength else 0
      ensures bytesFromOrigin == old(bytesFromOrigin) + if fromP2P then 0 else byteLength
      ensures chunksFromP2P == old(chunksFromP2P) + if fromP2P then 1 else 0
      ensures chunksFromOrigin == old(chunksFromOrigin) + if fromP2P then 0 else 1
    {
      if fromP2P {
        bytesFromP2P := bytesFromP2P + byteLength;
        chunksFromP2P := chunksFromP2P + 1;
      } else {
        bytesFromOrigin := bytesFromOrigin + byteLength;
        chunksFromOrigin := chunksFromOrigin + 1;
      }
    }

    /**
     * The callbacks after a download began, from zeroed counters. Those of a stopped earlier
     * scheduler reach the same counters, so that they exceed what the current one reports.
     */
    method Account(callbacks: seq<SchedulerBytes.Callback>)
      modifies `bytesFromP2P, `chunksFromP2P, `bytesFromOrigin, `chunksFromOrigin
      ensures var mine, late := SchedulerBytes.MadeBy(callbacks, true), SchedulerBytes.MadeBy(callbacks, false);
        && bytesFromP2P == SchedulerBytes.BytesFrom(mine, true) + SchedulerBytes.BytesFrom(late, true)
        && bytesFromOrigin == SchedulerBytes.BytesFrom(mine, false) + SchedulerBytes.BytesFrom(late, false)
        && chunksFromP2P + chunksFromOrigin == |SchedulerBytes.Reported(mine)| + |SchedulerBytes.Reported(late)|
      ensures chunksFromP2P == |SchedulerBytes.Completions(callbacks, true)|
      ensures chunksFromOrigin == |SchedulerBytes.Completions(callbacks, false)|
    {
      hide SchedulerBytes.MadeBy, SchedulerBytes.BytesFrom, SchedulerBytes.Reported, SchedulerBytes.Completions;
      bytesFromP2P, bytesFromOrigin, chunksFromP2P, chunksFromOrigin := 0, 0, 0, 0;
      SchedulerBytes.NothingMade();
      SchedulerBytes.NothingCompleted();
      for i := 0 to |callbacks|
        invariant var mine, late :=
          SchedulerBytes.MadeBy(callbacks[..i], true), SchedulerBytes.MadeBy(callbacks[..i], false);
          && bytesFromP2P == SchedulerBytes.BytesFrom(mine, true) + SchedulerBytes.BytesFrom(late, true)
          && bytesFromOrigin == SchedulerBytes.BytesFrom(mine, false) + SchedulerBytes.BytesFrom(late, false)
          && chunksFromP2P + chunksFromOrigin == |SchedulerBytes.Reported(mine)| + |SchedulerBytes.Reported(late)|
        invariant chunksFromP2P == |SchedulerBytes.Completions(callbacks[..i], true)|
        invariant chunksFromOrigin == |SchedulerBytes.Completions(callbacks[..i], false)|
      {
        SchedulerBytes.CompletionsMore(callbacks[..i], callbacks[i], true);
        SchedulerBytes.CompletionsMore(callbacks[..i], callbacks[i], false);
        assert callbacks[..i + 1] == callbacks[..i] + [callbacks[i]];
        SchedulerBytes.MadeMore(callbacks[..i], callbacks[i], true, true);
        SchedulerBytes.MadeMore(callbacks[..i], callbacks[i], false, true);
        SchedulerBytes.MadeMore(callbacks[..i], callbacks[i], true, false);
        SchedulerBytes.MadeMore(callbacks[..i], callbacks[i], false, false);
        if callbacks[i].output.Completed? {
          OnChunkCompleted(callbacks[i].output.fromP2P, callbacks[i].output.length);
        }
      }
      assert callbacks[..|callbacks|] == callbacks;
    }

    /** Null for another resource than the current one; fails with the first index that is not stored. */
    method AssembleFile(id: string, hash: Bytes -> Digest) returns (r: Result<Option<AssembledFile>, nat>)
      requires chunkStore.Valid()
      ensures r == Success(None) <==> currentManifest.None? || currentManifest.value.resourceId != id
      ensures r != Success(None) ==>
        var manifest, stored := currentManifest.value.content, OfResource(chunkStore.contents, id);
        && (r.Success? <==> forall i :: 0 <= i < manifest.totalChunks ==> i in stored)
        && (r.Success? ==>
              var blob := Joined(stored, manifest.totalChunks);
              r == Success(Some(AssembledFile(blob, hash(blob), hash(blob) == manifest.fileHash))))
        && (r.Failure? ==>
              r.error < manifest.totalChunks && r.error !in stored && forall i :: 0 <= i < r.error ==> i in stored)
    {
      hide MemoryChunkStore.Valid, OfResource, MakeKey;
      if currentManifest.None? || currentManifest.value.resourceId != id {
        return Success(None);
      }
      var manifest := currentManifest.value.content;
      var blob: Bytes := [];
      ghost var stored := OfResource(chunkStore.contents, id);
      for i := 0 to manifest.totalChunks
        invariant forall j: nat :: j < i ==> j in stored
        invariant blob == Joined(stored, i)
      {
        var chunk := chunkStore.Get(id, i);
        if chunk.None? {
          return Failure(i);
        }
        blob := blob + chunk.value;
      }
      var computedHash := hash(blob);
      return Success(Some(AssembledFile(blob, computedHash, computedHash == manifest.fileHash)));
    }
  }
}
