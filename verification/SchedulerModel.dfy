/**
 * What each event does to a chunk scheduler. A handler runs to its next `await` in one step;
 * the code behind the `await` is a task, and resuming it is an event of its own. Events may
 * come in any order, so a sequence of steps is any interleaving.
 */
module SchedulerModel {
  import opened Bitfields
  import opened Bytes
  import opened OrderedMaps
  import Reassembling
  import Sorting

  const MAX_IN_FLIGHT_PER_PEER: nat := 2

  const MAX_TOTAL_IN_FLIGHT: nat := 8

  const REQUEST_RETRIES: nat := 2

  type PeerId = string

  /** A peer's announced bitfield; it may be longer or shorter than the manifest. */
  datatype PeerBits = PeerBits(total: nat, bits: set<nat>) {
    predicate Has(i: nat) { i < total && i in bits }
  }

  datatype Request = Request(peer: PeerId, retries: nat)

  /** The number of chunks and the hashes that the manifest gives. */
  datatype Manifest = Manifest(total: nat, expected: map<nat, Digest>)

  /** Where a suspended verification of one chunk waits. */
  datatype Phase =
    | Fetching               // for the origin's answer
    | Verifying(data: Bytes) // for the hash
    | Storing(data: Bytes)   // for the store
    | Settling               // done; the caller's continuation is queued

  datatype Task = Task(chunk: nat, fromP2P: bool, phase: Phase)

  datatype Output =
    | HaveSent(chunk: nat)
    | Completed(chunk: nat, fromP2P: bool, length: nat)
    | DownloadComplete

  datatype Scheduler = Scheduler(
    manifest: Manifest,
    running: bool,
    have: set<nat>,
    peers: OrderedMap<PeerId, PeerBits>,
    choked: map<PeerId, bool>,
    inFlight: OrderedMap<nat, Request>,
    reassembly: map<nat, Reassembling.Reassembly>,
    atOrigin: set<nat>,
    tasks: seq<Task>,
    store: map<nat, Bytes>,
    log: seq<Output>)

  /** Whether `sendToPeer` takes the request for a chunk to a peer at a given retry count. */
  type Sends = (nat, PeerId, nat) -> bool

  // ---------------------------------------------------------------- queries

  predicate Complete(s: Scheduler) {
    Full(s.have, s.manifest.total)
  }

  function Outstanding(s: Scheduler): nat {
    |s.inFlight.vals| + |s.atOrigin|
  }

  predicate IsOutstanding(s: Scheduler, c: nat) {
    c in s.inFlight.vals || c in s.atOrigin
  }

  predicate Unchoked(s: Scheduler, p: PeerId) {
    p in s.choked ==> !s.choked[p]
  }

  /** A known, unchoked peer that announced the chunk. */
  predicate Offers(s: Scheduler, p: PeerId, c: nat) {
    p in s.peers.vals && Unchoked(s, p) && s.peers.vals[p].Has(c)
  }

  /** The chunks that were asked of `p`. */
  function AskedOf(requests: map<nat, Request>, p: PeerId): set<nat> {
    set c | c in requests && requests[c].peer == p
  }

  function Carried(s: Scheduler, p: PeerId): set<nat> {
    AskedOf(s.inFlight.vals, p)
  }

  function Load(s: Scheduler, p: PeerId): nat {
    |Carried(s, p)|
  }

  /** Those of `ps` that offer the chunk, in order. */
  function Offering(s: Scheduler, ps: seq<PeerId>, c: nat): (r: seq<PeerId>)
    ensures forall p :: p in r <==> p in ps && Offers(s, p, c)
  {
    if ps == [] then []
    else
      var last := ps[|ps| - 1];
      assert forall p :: p in ps <==> p in ps[..|ps| - 1] || p == last;
      Offering(s, ps[..|ps| - 1], c) + if Offers(s, last, c) then [last] else []
  }

  function Eligible(s: Scheduler, c: nat): (r: seq<PeerId>)
    ensures forall p :: p in r <==> Offers(s, p, c)
  {
    Offering(s, s.peers.keys, c)
  }

  /** Those of `ps` below the per-peer limit, in order. */
  function BelowLimit(s: Scheduler, ps: seq<PeerId>): (r: seq<PeerId>)
    ensures forall p :: p in r <==> p in ps && Load(s, p) < MAX_IN_FLIGHT_PER_PEER
  {
    if ps == [] then []
    else
      var last := ps[|ps| - 1];
      assert forall p :: p in ps <==> p in ps[..|ps| - 1] || p == last;
      BelowLimit(s, ps[..|ps| - 1]) + if Load(s, last) < MAX_IN_FLIGHT_PER_PEER then [last] else []
  }

  function ByLoad(s: Scheduler, ps: seq<PeerId>): (r: seq<PeerId>)
    ensures |r| == |ps|
  {
    Sorting.Sort(ps, p => Load(s, p))
  }

  function NotOutstanding(s: Scheduler, cs: seq<nat>): (r: seq<nat>)
    ensures forall c: nat :: c in r <==> c in cs && !IsOutstanding(s, c)
    ensures Distinct(cs) ==> Distinct(r)
  {
    if cs == [] then []
    else
      var last := cs[|cs| - 1];
      assert forall c: nat :: c in cs <==> c in cs[..|cs| - 1] || c == last;
      assert Distinct(cs) ==> last !in cs[..|cs| - 1];
      NotOutstanding(s, cs[..|cs| - 1]) + if !IsOutstanding(s, last) then [last] else []
  }

  function Candidates(s: Scheduler): (r: seq<nat>)
    ensures forall c: nat :: c in r <==> c < s.manifest.total && c !in s.have && !IsOutstanding(s, c)
    ensures Distinct(r)
  {
    ListsAscend(s.have, s.manifest.total);
    NotOutstanding(s, MissingBelow(s.have, s.manifest.total))
  }

  // ---------------------------------------------------------------- dispatching one chunk

  /** `dispatchOriginFallback`: marks the chunk and starts a fetch. */
  function DispatchOrigin(s: Scheduler, c: nat): Scheduler {
    if c in s.have || c in s.atOrigin then s
    else s.(atOrigin := s.atOrigin + {c}, tasks := s.tasks + [Task(c, false, Fetching)])
  }

  /** `dispatchP2PRequest`: a failed send goes back to `ScheduleChunk` with one more retry. */
  function DispatchP2P(s: Scheduler, c: nat, p: PeerId, retries: nat, sends: Sends): Scheduler
    requires retries <= REQUEST_RETRIES
    decreases REQUEST_RETRIES + 1 - retries, 0
  {
    if sends(c, p, retries) then s.(inFlight := s.inFlight.Set(c, Request(p, retries)))
    else ScheduleChunk(s, c, retries + 1, sends)
  }

  function ScheduleChunk(s: Scheduler, c: nat, retries: nat, sends: Sends): Scheduler
    decreases if retries <= REQUEST_RETRIES then REQUEST_RETRIES + 1 - retries else 0, 1
  {
    if c in s.have then s
    else if retries <= REQUEST_RETRIES && Eligible(s, c) != [] then
      DispatchP2P(s, c, ByLoad(s, Eligible(s, c))[0], retries, sends)
    else DispatchOrigin(s, c)
  }

  // ---------------------------------------------------------------- the scheduling pass

  datatype Rarity = Rarity(chunk: nat, rarity: nat, peers: seq<PeerId>)

  function RarityOf(s: Scheduler, c: nat): Rarity {
    Rarity(c, |Eligible(s, c)|, Eligible(s, c))
  }

  function RarityMap(s: Scheduler, cs: seq<nat>): seq<Rarity> {
    if cs == [] then [] else RarityMap(s, cs[..|cs| - 1]) + [RarityOf(s, cs[|cs| - 1])]
  }

  /** The entries with at least one holder (`available`), or with none, in order. */
  function Select(es: seq<Rarity>, available: bool): seq<Rarity> {
    if es == [] then []
    else Select(es[..|es| - 1], available) + if (es[|es| - 1].rarity > 0) == available then [es[|es| - 1]] else []
  }

  function RarityKey(e: Rarity): int {
    e.rarity
  }

  function ByRarity(es: seq<Rarity>): (r: seq<Rarity>)
    ensures |r| == |es|
  {
    Sorting.Sort(es, RarityKey)
  }

  function DispatchEntry(s: Scheduler, e: Rarity, sends: Sends): Scheduler {
    var free := BelowLimit(s, e.peers);
    if free == [] then s else DispatchP2P(s, e.chunk, ByLoad(s, free)[0], 0, sends)
  }

  function PeerTurn(s: Scheduler, e: Rarity, sends: Sends): Scheduler {
    if Outstanding(s) >= MAX_TOTAL_IN_FLIGHT then s else DispatchEntry(s, e, sends)
  }

  function OriginTurn(s: Scheduler, e: Rarity): Scheduler {
    if Outstanding(s) >= MAX_TOTAL_IN_FLIGHT then s else DispatchOrigin(s, e.chunk)
  }

  /** The state in which entry `k` of the first loop is considered. */
  function PeerPass(s: Scheduler, es: seq<Rarity>, k: nat, sends: Sends): Scheduler
    requires k <= |es|
  {
    if k == 0 then s else PeerTurn(PeerPass(s, es, k - 1, sends), es[k - 1], sends)
  }

  /** The state in which entry `k` of the second loop is considered. */
  function OriginPass(s: Scheduler, es: seq<Rarity>, k: nat): Scheduler
    requires k <= |es|
  {
    if k == 0 then s else OriginTurn(OriginPass(s, es, k - 1), es[k - 1])
  }

  function AvailableFromPeers(s: Scheduler): seq<Rarity> {
    ByRarity(Select(RarityMap(s, Candidates(s)), true))
  }

  function UnavailableFromPeers(s: Scheduler): seq<Rarity> {
    Select(RarityMap(s, Candidates(s)), false)
  }

  function Pass(s: Scheduler, sends: Sends): Scheduler {
    var available := AvailableFromPeers(s);
    var unavailable := UnavailableFromPeers(s);
    OriginPass(PeerPass(s, available, |available|, sends), unavailable, |unavailable|)
  }

  function ScheduleNext(s: Scheduler, sends: Sends): Scheduler {
    if Complete(s) then s.(log := s.log + [DownloadComplete])
    else if !s.running || Outstanding(s) >= MAX_TOTAL_IN_FLIGHT then s
    else Pass(s, sends)
  }

  function ScheduleIfRunning(s: Scheduler, sends: Sends): Scheduler {
    if s.running then ScheduleNext(s, sends) else s
  }

  // ---------------------------------------------------------------- events about peers

  function Start(s: Scheduler, sends: Sends): Scheduler {
    if s.running then s else ScheduleNext(s.(running := true), sends)
  }

  function Stop(s: Scheduler): Scheduler {
    s.(running := false, inFlight := Empty(), reassembly := map[], atOrigin := {})
  }

  function UpdatePeerBitfield(s: Scheduler, p: PeerId, bits: PeerBits, sends: Sends): Scheduler {
    ScheduleIfRunning(
      s.(peers := s.peers.Set(p, bits), choked := if p in s.choked then s.choked else s.choked[p := false]),
      sends)
  }

  function KnownPeer(s: Scheduler, p: PeerId): Scheduler {
    if p in s.peers.vals then s else s.(peers := s.peers.Set(p, PeerBits(s.manifest.total, {})))
  }

  /** An index beyond the peer's bitfield makes `set` throw, after the peer was recorded. */
  function UpdatePeerHave(s: Scheduler, p: PeerId, c: nat, sends: Sends): Scheduler {
    var t := KnownPeer(s, p);
    var bits := t.peers.vals[p];
    if c >= bits.total then t
    else ScheduleIfRunning(t.(peers := t.peers.Set(p, bits.(bits := bits.bits + {c}))), sends)
  }

  /** The coordinator sets a bit of a bitfield object that the scheduler holds too, and does not tell. */
  function MarkShared(s: Scheduler, p: PeerId, c: nat): Scheduler {
    if p in s.peers.vals && c < s.peers.vals[p].total then
      var bits := s.peers.vals[p];
      s.(peers := s.peers.Set(p, bits.(bits := bits.bits + {c})))
    else s
  }

  function SetPeerChoked(s: Scheduler, p: PeerId, choked: bool, sends: Sends): Scheduler {
    var t := s.(choked := s.choked[p := choked]);
    if choked then t else ScheduleIfRunning(t, sends)
  }

  /** Gives up the request for a chunk and its collected blocks. */
  function Abandon(s: Scheduler, c: nat): Scheduler {
    s.(inFlight := s.inFlight.Delete(c), reassembly := s.reassembly - {c})
  }

  /** The first `k` entries of the snapshot `lost` were handled. */
  function Requeue(s: Scheduler, lost: OrderedMap<nat, Request>, p: PeerId, k: nat, sends: Sends): Scheduler
    requires k <= |lost.keys|
  {
    if k == 0 then s
    else
      var t := Requeue(s, lost, p, k - 1, sends);
      var c := lost.keys[k - 1];
      if lost.vals[c].peer == p then ScheduleChunk(Abandon(t, c), c, lost.vals[c].retries + 1, sends) else t
  }

  function Forget(s: Scheduler, p: PeerId): Scheduler {
    s.(peers := s.peers.Delete(p), choked := s.choked - {p})
  }

  function RemovePeer(s: Scheduler, p: PeerId, sends: Sends): Scheduler {
    ScheduleIfRunning(Requeue(Forget(s, p), s.inFlight, p, |s.inFlight.keys|, sends), sends)
  }

  function HandleTimeout(s: Scheduler, c: nat, sends: Sends): Scheduler {
    if c !in s.inFlight.vals then s
    else ScheduleNext(ScheduleChunk(Abandon(s, c), c, s.inFlight.vals[c].retries + 1, sends), sends)
  }

  // ---------------------------------------------------------------- events about data

  /** `verifyAndStoreChunk` up to its first `await`. */
  function PhaseFor(manifest: Manifest, c: nat, data: Bytes): Phase {
    if c in manifest.expected then Verifying(data) else Settling
  }

  function Received(s: Scheduler, c: nat, offset: nat, total: nat, data: Bytes): Reassembling.Reassembly {
    Reassembling.AddBlock(if c in s.reassembly then s.reassembly[c] else Reassembling.Fresh(total), offset, data)
  }

  /** A block past the end makes the copy throw after the request was dropped. */
  function HandlePiece(s: Scheduler, c: nat, offset: nat, total: nat, data: Bytes): Scheduler {
    if c !in s.inFlight.vals then s
    else
      var item := Received(s, c, offset, total, data);
      if !Reassembling.Complete(item) then s.(reassembly := s.reassembly[c := item])
      else if Reassembling.Overruns(item) then Abandon(s, c)
      else
        var buffer := Reassembling.Assembled(item);
        Abandon(s, c).(tasks := s.tasks + [Task(c, true, PhaseFor(s.manifest, c, buffer))])
  }

  predicate Waits(s: Scheduler, i: nat) {
    i < |s.tasks|
  }

  function Move(s: Scheduler, i: nat, phase: Phase): Scheduler
    requires Waits(s, i)
  {
    s.(tasks := s.tasks[i := s.tasks[i].(phase := phase)])
  }

  function Drop(s: Scheduler, i: nat): Scheduler
    requires Waits(s, i)
  {
    s.(tasks := s.tasks[..i] + s.tasks[i + 1..])
  }

  function Fetched(s: Scheduler, i: nat, data: Bytes): Scheduler {
    if Waits(s, i) && s.tasks[i].phase.Fetching? then Move(s, i, PhaseFor(s.manifest, s.tasks[i].chunk, data)) else s
  }

  predicate Authentic(m: Manifest, hash: Bytes -> Digest, c: nat, data: Bytes) {
    c in m.expected && m.expected[c] == hash(data)
  }

  function Verified(s: Scheduler, i: nat, hash: Bytes -> Digest): Scheduler {
    if Waits(s, i) && s.tasks[i].phase.Verifying? then
      var task := s.tasks[i];
      if Authentic(s.manifest, hash, task.chunk, task.phase.data) then Move(s, i, Storing(task.phase.data))
      else Move(DispatchOrigin(s, task.chunk), i, Settling)
    else s
  }

  /** The store has the bytes: mark, announce and report the chunk. */
  function Stored(s: Scheduler, i: nat): Scheduler {
    if Waits(s, i) && s.tasks[i].phase.Storing? then
      var task := s.tasks[i];
      var c := task.chunk;
      var t := Move(s, i, Settling).(
        store := s.store[c := task.phase.data],
        have := s.have + {c},
        log := s.log + [HaveSent(c), Completed(c, task.fromP2P, |task.phase.data|)]);
      if Complete(t) then t.(log := t.log + [DownloadComplete]) else t
    else s
  }

  /** An awaited promise is rejected: a peer's chunk is dropped, an origin fetch still settles. */
  function Rejected(s: Scheduler, i: nat): Scheduler {
    if Waits(s, i) && !s.tasks[i].phase.Settling? then
      if s.tasks[i].fromP2P then Drop(s, i) else Move(s, i, Settling)
    else s
  }

  /** The continuation in `handlePiece`, or the `finally` of an origin fetch. */
  function Settled(s: Scheduler, i: nat, sends: Sends): Scheduler {
    if Waits(s, i) && s.tasks[i].phase.Settling? then
      var task := s.tasks[i];
      ScheduleIfRunning(
        if task.fromP2P then Drop(s, i) else Drop(s, i).(atOrigin := s.atOrigin - {task.chunk}),
        sends)
    else s
  }

  // ---------------------------------------------------------------- runs

  datatype Event =
    | Started
    | Stopped
    | GotBitfield(peer: PeerId, bits: PeerBits)
    | GotHave(peer: PeerId, chunk: nat)
    | SharedHave(peer: PeerId, chunk: nat)
    | GotChoke(peer: PeerId, choked: bool)
    | LostPeer(peer: PeerId)
    | TimedOut(chunk: nat)
    | GotPiece(chunk: nat, offset: nat, total: nat, data: Bytes)
    | FetchResolved(task: nat, data: Bytes)
    | VerifyResolved(task: nat)
    | PutResolved(task: nat)
    | AwaitRejected(task: nat)
    | Continued(task: nat)

  /** An event, with the answers that `sendToPeer` gives while it is handled. */
  datatype Input = Input(event: Event, sends: Sends)

  function Step(s: Scheduler, input: Input, hash: Bytes -> Digest): Scheduler {
    var sends := input.sends;
    match input.event
    case Started => Start(s, sends)
    case Stopped => Stop(s)
    case GotBitfield(p, bits) => UpdatePeerBitfield(s, p, bits, sends)
    case GotHave(p, c) => UpdatePeerHave(s, p, c, sends)
    case SharedHave(p, c) => MarkShared(s, p, c)
    case GotChoke(p, choked) => SetPeerChoked(s, p, choked, sends)
    case LostPeer(p) => RemovePeer(s, p, sends)
    case TimedOut(c) => HandleTimeout(s, c, sends)
    case GotPiece(c, offset, total, data) => HandlePiece(s, c, offset, total, data)
    case FetchResolved(i, data) => Fetched(s, i, data)
    case VerifyResolved(i) => Verified(s, i, hash)
    case PutResolved(i) => Stored(s, i)
    case AwaitRejected(i) => Rejected(s, i)
    case Continued(i) => Settled(s, i, sends)
  }

  function Run(s: Scheduler, inputs: seq<Input>, hash: Bytes -> Digest): Scheduler {
    if inputs == [] then s
    else Step(Run(s, inputs[..|inputs| - 1], hash), inputs[|inputs| - 1], hash)
  }
}
