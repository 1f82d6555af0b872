/** What the frames of the peers do to the scheduler, and to what the coordinator knows of the peers. */
module PeerFrames {
  import opened Bitfields
  import opened Bytes
  import opened ByteValues
  import opened Decimals
  import opened OrderedMaps
  import opened Results
  import opened SchedulerModel
  import opened SchedulerPeers
  import opened SchedulerSafety
  import BlockTransfer
  import Wire

  // ---------------------------------------------------------------- incoming frames

  predicate InBounds(bounds: Option<nat>, c: nat) {
    bounds.Some? ==> c < bounds.value
  }

  /** What the coordinator holds of a peer's bitfield: its length, and whether the scheduler holds the same object. */
  datatype Held = Held(bounds: Option<nat>, shared: bool)

  /**
   * What a frame from `peer` does to the scheduler of the resource `id`, if anything. A HAVE
   * beyond the coordinator's own bitfield throws before the scheduler hears of it; one for
   * another resource still marks a bitfield object that both hold.
   */
  function FrameEvent(peer: PeerId, frame: Bytes, id: Bytes, held: Held): Option<Event> {
    match Wire.DecodeMessage(frame)
    case Failure(_) => None
    case Success(Bitfield(to, total, bits)) =>
      if to == id then Some(GotBitfield(peer, PeerBits(total, Members(bits, total)))) else None
    case Success(Have(to, c)) =>
      if !InBounds(held.bounds, c) then None
      else if to == id then Some(GotHave(peer, c))
      else if held.shared then Some(SharedHave(peer, c)) else None
    case Success(Request(_, _)) => None
    case Success(Piece(to, c, offset, total, data)) => if to == id then Some(GotPiece(c, offset, total, data)) else None
    case Success(Choke(to)) => if to == id then Some(GotChoke(peer, true)) else None
    case Success(Unchoke(to)) => if to == id then Some(GotChoke(peer, false)) else None
  }

  function Met(known: OrderedMap<PeerId, PeerBits>, currentTotal: Option<nat>,
               peer: PeerId): OrderedMap<PeerId, PeerBits> {
    if peer !in known.vals && currentTotal.Some? then known.Set(peer, PeerBits(currentTotal.value, {})) else known
  }

  lemma MetBound(known: OrderedMap<PeerId, PeerBits>, currentTotal: Option<nat>, peer: PeerId)
    ensures var met := Met(known, currentTotal, peer);
      && (peer in met.vals <==> peer in known.vals || currentTotal.Some?)
      && (peer in met.vals ==>
            Some(met.vals[peer].total) == if peer in known.vals then Some(known.vals[peer].total) else currentTotal)
  {
  }

  /** An index beyond the peer's bitfield throws, after the peer was recorded. */
  function HaveNoted(known: OrderedMap<PeerId, PeerBits>, currentTotal: Option<nat>, peer: PeerId, c: nat)
    : OrderedMap<PeerId, PeerBits>
  {
    var met := Met(known, currentTotal, peer);
    if peer in met.vals && c < met.vals[peer].total
    then met.Set(peer, met.vals[peer].(bits := met.vals[peer].bits + {c})) else met
  }

  /** What the coordinator itself knows of its peers' chunks after the frame, whatever its resource. */
  function BitfieldsAfter(known: OrderedMap<PeerId, PeerBits>, currentTotal: Option<nat>, peer: PeerId, frame: Bytes)
    : OrderedMap<PeerId, PeerBits>
  {
    match Wire.DecodeMessage(frame)
    case Success(Bitfield(_, total, bits)) => known.Set(peer, PeerBits(total, Members(bits, total)))
    case Success(Have(_, c)) => HaveNoted(known, currentTotal, peer, c)
    case _ => known
  }

  /** The peers whose bitfield the coordinator and the scheduler of `id` hold as one object. */
  function SharedAfter(shared: set<PeerId>, peer: PeerId, frame: Bytes, id: Bytes): set<PeerId> {
    match Wire.DecodeMessage(frame)
    case Success(Bitfield(to, _, _)) => if to == id then shared + {peer} else shared - {peer}
    case _ => shared
  }

  function AfterFrame(s: Scheduler, peer: PeerId, frame: Bytes, id: Bytes, held: Held, sends: Sends,
                      hash: Bytes -> Digest)
    : Scheduler
  {
    match FrameEvent(peer, frame, id, held)
    case None => s
    case Some(event) => Step(s, Input(event, sends), hash)
  }

  /**
   * Whatever bytes a peer sends, no frame marks, stores, announces or reports a chunk, and all
   * that every interleaving keeps is kept.
   */
  lemma FramesTouchNoData(s: Scheduler, peer: PeerId, frame: Bytes, id: Bytes, held: Held, sends: Sends,
                          hash: Bytes -> Digest)
    requires Safe(s, hash)
    ensures var t := AfterFrame(s, peer, frame, id, held, sends, hash);
      && Safe(t, hash) && t.manifest == s.manifest && t.have == s.have && t.store == s.store
      && forall o :: o in t.log ==> o in s.log || o == DownloadComplete
  {
    hide Safe, Step, Wire.DecodeMessage;
    var event := FrameEvent(peer, frame, id, held);
    if event.Some? {
      StepSafe(s, Input(event.value, sends), hash);
      StepQuiet(s, Input(event.value, sends), hash);
    }
  }

  /** The shared bitfields have one value. */
  ghost predicate Agree(shared: set<PeerId>, known: OrderedMap<PeerId, PeerBits>,
                        theirs: OrderedMap<PeerId, PeerBits>) {
    forall p :: p in shared ==> p in known.vals && p in theirs.vals && theirs.vals[p] == known.vals[p]
  }

  lemma AgreeElsewhere(shared: set<PeerId>, known: OrderedMap<PeerId, PeerBits>, theirs: OrderedMap<PeerId, PeerBits>,
                       p: PeerId, bits: PeerBits)
    requires Agree(shared, known, theirs)
    ensures Agree(shared + {p}, known.Set(p, bits), theirs.Set(p, bits))
    ensures Agree(shared - {p}, known.Set(p, bits), theirs)
    ensures Agree(shared - {p}, known.Delete(p), theirs.Delete(p))
    ensures p !in shared ==> Agree(shared, known.Set(p, bits), theirs)
  {
  }

  lemma AgreeShared(shared: set<PeerId>, known: OrderedMap<PeerId, PeerBits>, theirs: OrderedMap<PeerId, PeerBits>,
                    p: PeerId)
    requires Agree(shared, known, theirs) && p in shared
    ensures p in known.vals && p in theirs.vals && theirs.vals[p] == known.vals[p]
  {
  }

  lemma SetTwice<K(!new), V>(m: OrderedMap<K, V>, k: K, v: V)
    ensures m.Set(k, v).Set(k, v) == m.Set(k, v)
  {
  }

  /** What the types of a decoded message promise. */
  lemma DecodedFields(raw: Bytes)
    requires Wire.DecodeMessage(raw).Success?
    ensures var m := Wire.DecodeMessage(raw).value;
      && (m.Bitfield? ==> m.totalChunks >= 0 && |m.bits| == RequiredBytes(m.totalChunks))
      && (m.Have? || m.Request? || m.Piece? ==> m.chunk >= 0)
      && (m.Piece? ==> m.offset >= 0 && m.total >= 0)
  {
  }

  /** A bit of a shared bitfield that was set already is set again to no effect. */
  lemma MarkedTwice(s: Scheduler, p: PeerId, c: nat, sends: Sends)
    requires p in s.peers.vals && c < s.peers.vals[p].total
    ensures UpdatePeerHave(MarkShared(s, p, c), p, c, sends) == UpdatePeerHave(s, p, c, sends)
    ensures p in MarkShared(s, p, c).peers.vals && c in MarkShared(s, p, c).peers.vals[p].bits
  {
    hide ScheduleIfRunning;
    var bits := s.peers.vals[p];
    assert bits.bits + {c} + {c} == bits.bits + {c};
    SetTwice(s.peers, p, bits.(bits := bits.bits + {c}));
  }

  lemma HaveKeepsAgreement(shared: set<PeerId>, known: OrderedMap<PeerId, PeerBits>, s: Scheduler, p: PeerId, c: nat,
                           sends: Sends)
    requires Agree(shared, known, s.peers)
    requires p in shared ==> p in s.peers.vals && c in s.peers.vals[p].bits
    ensures Agree(shared, known, UpdatePeerHave(s, p, c, sends).peers)
  {
    hide UpdatePeerHave;
    HavePeers(s, p, c, sends);
  }

  // ---------------------------------------------------------------- one frame

  lemma StepView(s: Scheduler, input: Input, hash: Bytes -> Digest, p: PeerId, c: nat)
    ensures var t := Step(s, input, hash);
      t.manifest == s.manifest && Reflects(s, t, input.event, p, c)
  {
    hide Step, Before, Schedules, ScheduleNext, Reflects;
    var b := Before(s, input, hash);
    StepSplits(s, input, hash);
    BeforeView(s, input, hash, p, c);
    ScheduleNextKeepsPeers(b, input.sends);
    SameReflects(s, b, ScheduleNext(b, input.sends), input.event, p, c);
  }

  /** After a CHOKE of the resource the peer is asked for nothing. */
  lemma ChokeSilences(s: Scheduler, peer: PeerId, frame: Bytes, id: Bytes, held: Held, sends: Sends,
                      hash: Bytes -> Digest, c: nat)
    requires Wire.IsChoke(frame, id)
    ensures !Offers(AfterFrame(s, peer, frame, id, held, sends, hash), peer, c)
  {
    hide Step, Wire.DecodeMessage;
    Wire.LayoutRead(frame, 5, id, 0);
    StepView(s, Input(GotChoke(peer, true), sends), hash, peer, c);
  }

  /** After an UNCHOKE of the resource the peer may be asked for exactly what it announced. */
  lemma UnchokeOffers(s: Scheduler, peer: PeerId, frame: Bytes, id: Bytes, held: Held, sends: Sends,
                      hash: Bytes -> Digest, c: nat)
    requires Wire.IsUnchoke(frame, id)
    ensures Offers(AfterFrame(s, peer, frame, id, held, sends, hash), peer, c) <==> Has(s, peer, c)
  {
    hide Step, Wire.DecodeMessage;
    Wire.LayoutRead(frame, 6, id, 0);
    StepView(s, Input(GotChoke(peer, false), sends), hash, peer, c);
  }

  /** A frame of another resource leaves the scheduler alone, unless it is a HAVE and the bitfield is shared. */
  lemma ForeignFrame(s: Scheduler, peer: PeerId, frame: Bytes, id: Bytes, held: Held, sends: Sends,
                     hash: Bytes -> Digest)
    requires var r := Wire.DecodeMessage(frame); r.Success? ==> r.value.id != id && (r.value.Have? ==> !held.shared)
    ensures AfterFrame(s, peer, frame, id, held, sends, hash) == s
  {
    hide Wire.DecodeMessage, Step;
  }

  /** A PIECE is a block that arrives, whoever sends it. */
  lemma PieceArrives(s: Scheduler, peer: PeerId, frame: Bytes, id: Bytes, held: Held, sends: Sends,
                     hash: Bytes -> Digest)
    requires var r := Wire.DecodeMessage(frame); r.Success? && r.value.Piece?
    ensures AfterFrame(s, peer, frame, id, held, sends, hash) == BlockTransfer.ReceiveFrame(s, id, frame)
  {
    hide Wire.DecodeMessage, HandlePiece;
    DecodedFields(frame);
  }

  // ---------------------------------------------------------------- runs of frames

  /** The coordinator's side and the scheduler's; `total` is the length of the current manifest. */
  datatype Mesh = Mesh(known: OrderedMap<PeerId, PeerBits>, shared: set<PeerId>, total: Option<nat>, s: Scheduler)

  function HeldIn(m: Mesh, p: PeerId): Held {
    Held(if p in m.known.vals then Some(m.known.vals[p].total) else m.total, p in m.shared)
  }

  /** `Begun` is the call of `startDownload`, which stops this scheduler. */
  datatype Happening =
    | Frame(peer: PeerId, bytes: Bytes, sends: Sends)
    | Left(peer: PeerId, sends: Sends)
    | Begun(total: nat)
    | Other(input: Input)

  function Next(m: Mesh, h: Happening, id: Bytes, hash: Bytes -> Digest): Mesh {
    match h
    case Frame(p, bytes, sends) =>
      Mesh(BitfieldsAfter(m.known, m.total, p, bytes), SharedAfter(m.shared, p, bytes, id), m.total,
           AfterFrame(m.s, p, bytes, id, HeldIn(m, p), sends, hash))
    case Left(p, sends) => Mesh(m.known.Delete(p), m.shared - {p}, m.total, RemovePeer(m.s, p, sends))
    case Begun(total) => m.(total := Some(total), s := Stop(m.s))
    case Other(input) => m.(s := Step(m.s, input, hash))
  }

  function RunFrames(m: Mesh, hs: seq<Happening>, id: Bytes, hash: Bytes -> Digest): Mesh {
    if hs == [] then m else Next(RunFrames(m, hs[..|hs| - 1], id, hash), hs[|hs| - 1], id, hash)
  }

  /** What peers say and that they leave is not among the other inputs. */
  predicate Proper(h: Happening) {
    h.Other? ==>
      var event := h.input.event;
      !event.GotBitfield? && !event.GotHave? && !event.SharedHave? && !event.GotChoke? && !event.GotPiece?
      && !event.LostPeer?
  }

  predicate AllProper(hs: seq<Happening>) {
    forall k :: 0 <= k < |hs| ==> Proper(hs[k])
  }

  /** The message in a frame of `p`. */
  function Said(h: Happening, p: PeerId): Option<Wire.WireMessage> {
    if h.Frame? && h.peer == p && Wire.DecodeMessage(h.bytes).Success? then Some(Wire.DecodeMessage(h.bytes).value)
    else None
  }

  predicate Announces(said: Option<Wire.WireMessage>) {
    said.Some? && said.value.Bitfield? && said.value.totalChunks >= 0
  }

  predicate Adds(said: Option<Wire.WireMessage>) {
    said.Some? && said.value.Have?
  }

  predicate Gone(h: Happening, p: PeerId) {
    h.Left? && h.peer == p
  }

  /** By its last CHOKE or UNCHOKE of the resource the peer refuses to serve; one that comes anew does not. */
  predicate RefusesBy(m: Mesh, hs: seq<Happening>, id: Bytes, p: PeerId) {
    if hs == [] then !Unchoked(m.s, p)
    else
      var h := hs[|hs| - 1];
      if Said(h, p) == Some(Wire.Choke(id)) then true
      else if Said(h, p) == Some(Wire.Unchoke(id)) || Gone(h, p) then false
      else RefusesBy(m, hs[..|hs| - 1], id, p)
  }

  function TotalBy(m: Mesh, hs: seq<Happening>): Option<nat> {
    if hs == [] then m.total
    else if hs[|hs| - 1].Begun? then Some(hs[|hs| - 1].total)
    else TotalBy(m, hs[..|hs| - 1])
  }

  /** The length of the bitfield that the coordinator has for the peer, of whatever resource it was. */
  function BoundBy(m: Mesh, hs: seq<Happening>, p: PeerId): Option<nat> {
    if hs == [] then if p in m.known.vals then Some(m.known.vals[p].total) else None
    else
      var front, said := hs[..|hs| - 1], Said(hs[|hs| - 1], p);
      if Announces(said) then Some(said.value.totalChunks)
      else if Gone(hs[|hs| - 1], p) then None
      else if Adds(said) && BoundBy(m, front, p).None? then TotalBy(m, front)
      else BoundBy(m, front, p)
  }

  /** What the index of a HAVE is measured against, if anything. */
  function LimitBy(m: Mesh, hs: seq<Happening>, p: PeerId): Option<nat> {
    if BoundBy(m, hs, p).Some? then BoundBy(m, hs, p) else TotalBy(m, hs)
  }

  /** The peer's last BITFIELD was of the resource. */
  predicate SharesBy(m: Mesh, hs: seq<Happening>, id: Bytes, p: PeerId) {
    if hs == [] then p in m.shared
    else
      var said := Said(hs[|hs| - 1], p);
      if Announces(said) then said.value.id == id
      else !Gone(hs[|hs| - 1], p) && SharesBy(m, hs[..|hs| - 1], id, p)
  }

  /** The length of the last bitfield of the resource that the peer announced, and otherwise the manifest's. */
  function LengthBy(m: Mesh, hs: seq<Happening>, id: Bytes, p: PeerId): nat {
    if hs == [] then LengthIn(m.s, p)
    else
      var said := Said(hs[|hs| - 1], p);
      if Announces(said) && said.value.id == id then said.value.totalChunks
      else if Gone(hs[|hs| - 1], p) then m.s.manifest.total
      else LengthBy(m, hs[..|hs| - 1], id, p)
  }

  /**
   * By its last BITFIELD of the resource and the HAVEs since, the peer has the chunk. A HAVE of
   * another resource counts as well while its last BITFIELD of any was of this one.
   */
  predicate ClaimsBy(m: Mesh, hs: seq<Happening>, id: Bytes, p: PeerId, c: nat) {
    if hs == [] then Has(m.s, p, c)
    else
      var front, said := hs[..|hs| - 1], Said(hs[|hs| - 1], p);
      if Announces(said) && said.value.id == id then c in Members(said.value.bits, said.value.totalChunks)
      else if Gone(hs[|hs| - 1], p) then false
      else
        || ClaimsBy(m, front, id, p, c)
        || (Adds(said) && said.value.chunk == c && InBounds(LimitBy(m, front, p), c) && c < LengthBy(m, front, id, p)
            && (said.value.id == id || SharesBy(m, front, id, p)))
  }

  predicate NotedIn(m: Mesh, p: PeerId, c: nat) {
    p in m.known.vals && c in m.known.vals[p].bits
  }

  /** By its last BITFIELD and the HAVEs since, of whatever resource, the peer has the chunk. */
  predicate NotedBy(m: Mesh, hs: seq<Happening>, p: PeerId, c: nat) {
    if hs == [] then NotedIn(m, p, c)
    else
      var front, said := hs[..|hs| - 1], Said(hs[|hs| - 1], p);
      if Announces(said) then c in Members(said.value.bits, said.value.totalChunks)
      else if Gone(hs[|hs| - 1], p) then false
      else
        || NotedBy(m, front, p, c)
        || (Adds(said) && said.value.chunk == c && LimitBy(m, front, p).Some? && c < LimitBy(m, front, p).value)
  }

  function BoundIn(m: Mesh, p: PeerId): Option<nat> {
    if p in m.known.vals then Some(m.known.vals[p].total) else None
  }

  /** The coordinator's side of one peer and one chunk is what was said. */
  ghost predicate Knows(m: Mesh, first: Mesh, hs: seq<Happening>, id: Bytes, p: PeerId, c: nat) {
    && m.total == TotalBy(first, hs) && BoundIn(m, p) == BoundBy(first, hs, p)
    && (p in m.shared <==> SharesBy(first, hs, id, p)) && (NotedIn(m, p, c) <==> NotedBy(first, hs, p, c))
  }

  /** And the scheduler's. */
  ghost predicate Believes(m: Mesh, first: Mesh, hs: seq<Happening>, id: Bytes, p: PeerId, c: nat) {
    && m.s.manifest.total == first.s.manifest.total
    && (Has(m.s, p, c) <==> ClaimsBy(first, hs, id, p, c)) && (Unchoked(m.s, p) <==> !RefusesBy(first, hs, id, p))
    && LengthIn(m.s, p) == LengthBy(first, hs, id, p)
    && (p in m.shared ==> p in m.s.peers.vals)
  }

  lemma HaveView(known: OrderedMap<PeerId, PeerBits>, total: Option<nat>, q: PeerId, d: nat, p: PeerId, c: nat)
    ensures var t, limit := HaveNoted(known, total, q, d), if p in known.vals then Some(known.vals[p].total) else total;
      && (p in t.vals <==> p in known.vals || (p == q && total.Some?))
      && (p in t.vals && (p in known.vals || p == q) ==> Some(t.vals[p].total) == limit)
      && (p in t.vals && c in t.vals[p].bits <==>
            (p in known.vals && c in known.vals[p].bits)
            || (p == q && c == d && limit.Some? && c < limit.value))
  {
  }

  /** How a frame changes what the coordinator has noted of one peer and one chunk. */
  lemma FrameNoted(m: Mesh, h: Happening, id: Bytes, hash: Bytes -> Digest, p: PeerId, c: nat)
    requires h.Frame?
    ensures var t, said, limit := Next(m, h, id, hash), Said(h, p), HeldIn(m, p).bounds;
      if Announces(said) then
        && BoundIn(t, p) == Some(said.value.totalChunks) && (p in t.shared <==> said.value.id == id)
        && (NotedIn(t, p, c) <==> c in Members(said.value.bits, said.value.totalChunks))
      else
        && BoundIn(t, p) == (if Adds(said) then limit else BoundIn(m, p)) && (p in t.shared <==> p in m.shared)
        && (NotedIn(t, p, c) <==>
              NotedIn(m, p, c) || (Adds(said) && said.value.chunk == c && limit.Some? && c < limit.value))
  {
    hide Wire.DecodeMessage, Step, AfterFrame, Members, HaveNoted;
    if Wire.DecodeMessage(h.bytes).Success? {
      DecodedFields(h.bytes);
      var message := Wire.DecodeMessage(h.bytes).value;
      if message.Have? {
        HaveView(m.known, m.total, h.peer, message.chunk, p, c);
      }
    }
  }

  lemma KnowsHeard(m: Mesh, first: Mesh, hs: seq<Happening>, h: Happening, id: Bytes, hash: Bytes -> Digest, p: PeerId,
                   c: nat)
    requires h.Frame? && Knows(m, first, hs, id, p, c)
    ensures Knows(Next(m, h, id, hash), first, hs + [h], id, p, c)
  {
    hide Said, Step, AfterFrame, BitfieldsAfter, SharedAfter, Members, NotedIn;
    assert (hs + [h])[..|hs|] == hs;
    FrameNoted(m, h, id, hash, p, c);
  }

  /** What is no frame changes the notes of a peer only if the peer leaves. */
  lemma QuietNoted(m: Mesh, h: Happening, id: Bytes, hash: Bytes -> Digest, p: PeerId, c: nat)
    requires !h.Frame?
    ensures var t := Next(m, h, id, hash);
      && t.total == (if h.Begun? then Some(h.total) else m.total)
      && BoundIn(t, p) == (if Gone(h, p) then None else BoundIn(m, p))
      && (p in t.shared <==> !Gone(h, p) && p in m.shared)
      && (NotedIn(t, p, c) <==> !Gone(h, p) && NotedIn(m, p, c))
  {
    hide Step, RemovePeer, Stop;
  }

  lemma KnowsQuiet(m: Mesh, first: Mesh, hs: seq<Happening>, h: Happening, id: Bytes, hash: Bytes -> Digest, p: PeerId,
                   c: nat)
    requires !h.Frame? && Knows(m, first, hs, id, p, c)
    ensures Knows(Next(m, h, id, hash), first, hs + [h], id, p, c)
  {
    hide Next, NotedIn, BoundIn;
    assert (hs + [h])[..|hs|] == hs && Said(h, p) == None;
    QuietNoted(m, h, id, hash, p, c);
  }

  lemma FrameBelieved(m: Mesh, h: Happening, id: Bytes, hash: Bytes -> Digest, p: PeerId, c: nat)
    requires h.Frame?
    ensures var event, t := FrameEvent(h.peer, h.bytes, id, HeldIn(m, h.peer)), Next(m, h, id, hash).s;
      && t.manifest == m.s.manifest
      && if event.None? then t == m.s else Reflects(m.s, t, event.value, p, c)
  {
    hide Wire.DecodeMessage, Step, FrameEvent, Reflects;
    var event := FrameEvent(h.peer, h.bytes, id, HeldIn(m, h.peer));
    if event.Some? {
      StepView(m.s, Input(event.value, h.sends), hash, p, c);
    }
  }

  /** How a frame changes what the scheduler believes of one peer and one chunk. */
  lemma FrameHeard(m: Mesh, h: Happening, id: Bytes, hash: Bytes -> Digest, p: PeerId, c: nat)
    requires h.Frame? && (p in m.shared ==> p in m.s.peers.vals)
    ensures var s, t, said, limit := m.s, Next(m, h, id, hash).s, Said(h, p), HeldIn(m, p).bounds;
      var ours := Announces(said) && said.value.id == id;
      && t.manifest == s.manifest && (ours || p in m.shared ==> p in t.peers.vals)
      && LengthIn(t, p) == (if ours then said.value.totalChunks else LengthIn(s, p))
      && (Unchoked(t, p) <==>
            if said == Some(Wire.Choke(id)) then false else said == Some(Wire.Unchoke(id)) || Unchoked(s, p))
      && (Has(t, p, c) <==>
            if ours then c in Members(said.value.bits, said.value.totalChunks)
            else
              || Has(s, p, c)
              || (Adds(said) && said.value.chunk == c && InBounds(limit, c) && c < LengthIn(s, p)
                  && (said.value.id == id || p in m.shared)))
  {
    hide Wire.DecodeMessage, Step, AfterFrame, Members, BitfieldsAfter, SharedAfter, Has, LengthIn, Unchoked;
    FrameBelieved(m, h, id, hash, p, c);
    if Wire.DecodeMessage(h.bytes).Success? {
      DecodedFields(h.bytes);
    }
  }

  lemma BelievesHeard(m: Mesh, first: Mesh, hs: seq<Happening>, h: Happening, id: Bytes, hash: Bytes -> Digest,
                      p: PeerId, c: nat)
    requires h.Frame? && Knows(m, first, hs, id, p, c) && Believes(m, first, hs, id, p, c)
    ensures Believes(Next(m, h, id, hash), first, hs + [h], id, p, c)
  {
    hide Said, Step, AfterFrame, BitfieldsAfter, SharedAfter, Members, Has, LengthIn, Unchoked, NotedIn, NotedBy;
    assert (hs + [h])[..|hs|] == hs;
    FrameHeard(m, h, id, hash, p, c);
    FrameNoted(m, h, id, hash, p, c);
  }

  lemma LeftView(s: Scheduler, q: PeerId, sends: Sends, hash: Bytes -> Digest, p: PeerId, c: nat)
    ensures RemovePeer(s, q, sends).manifest == s.manifest
    ensures Reflects(s, RemovePeer(s, q, sends), LostPeer(q), p, c)
  {
    hide RemovePeer, Reflects;
    StepView(s, Input(LostPeer(q), sends), hash, p, c);
  }

  lemma StopView(s: Scheduler, p: PeerId, c: nat)
    ensures SameView(s, Stop(s), p, c) && Stop(s).manifest == s.manifest
  {
  }

  /** What is no frame changes the view only if the peer leaves. */
  lemma QuietView(m: Mesh, h: Happening, id: Bytes, hash: Bytes -> Digest, p: PeerId, c: nat)
    requires Proper(h) && !h.Frame?
    ensures var s, t := m.s, Next(m, h, id, hash);
      && t.s.manifest == s.manifest && (p in t.shared <==> p in m.shared && !Gone(h, p))
      && if Gone(h, p) then Reflects(s, t.s, LostPeer(p), p, c) else SameView(s, t.s, p, c)
  {
    hide Step, RemovePeer, Stop, SameView, Has, LengthIn, Unchoked;
    match h
    case Left(q, sends) => LeftView(m.s, q, sends, hash, p, c);
    case Begun(_) => StopView(m.s, p, c);
    case Other(input) => StepView(m.s, input, hash, p, c);
  }

  lemma BelievesQuiet(m: Mesh, first: Mesh, hs: seq<Happening>, h: Happening, id: Bytes, hash: Bytes -> Digest,
                      p: PeerId, c: nat)
    requires Proper(h) && !h.Frame? && Believes(m, first, hs, id, p, c)
    ensures Believes(Next(m, h, id, hash), first, hs + [h], id, p, c)
  {
    hide Next, Proper, Has, LengthIn, Unchoked;
    assert (hs + [h])[..|hs|] == hs && Said(h, p) == None;
    QuietView(m, h, id, hash, p, c);
  }

  lemma BelievesOffers(m: Mesh, first: Mesh, hs: seq<Happening>, id: Bytes, p: PeerId, c: nat)
    requires Believes(m, first, hs, id, p, c)
    ensures Offers(m.s, p, c) <==> ClaimsBy(first, hs, id, p, c) && !RefusesBy(first, hs, id, p)
  {
    hide ClaimsBy, RefusesBy, LengthBy;
  }

  lemma NothingHeard(first: Mesh, id: Bytes, p: PeerId, c: nat)
    requires p in first.shared ==> p in first.s.peers.vals
    ensures Knows(first, first, [], id, p, c) && Believes(first, first, [], id, p, c)
  {
  }

  /**
   * Over any run of frames, from any peers and of any resources, among anything else that happens:
   * a peer is a candidate for a chunk if and only if it claims the chunk by its last BITFIELD of the
   * resource and the HAVEs since, and its last CHOKE or UNCHOKE of the resource was no CHOKE.
   */
  lemma {:induction false} FramesDecide(first: Mesh, hs: seq<Happening>, id: Bytes, hash: Bytes -> Digest, p: PeerId,
                                        c: nat)
    requires AllProper(hs) && (p in first.shared ==> p in first.s.peers.vals)
    ensures var m := RunFrames(first, hs, id, hash);
      && Knows(m, first, hs, id, p, c) && Believes(m, first, hs, id, p, c)
      && (Offers(m.s, p, c) <==> ClaimsBy(first, hs, id, p, c) && !RefusesBy(first, hs, id, p))
  {
    hide Next, Knows, Believes, Offers, ClaimsBy, RefusesBy;
    if hs == [] {
      NothingHeard(first, id, p, c);
    } else {
      var front, h := hs[..|hs| - 1], hs[|hs| - 1];
      FramesDecide(first, front, id, hash, p, c);
      var m := RunFrames(first, front, id, hash);
      if h.Frame? {
        KnowsHeard(m, first, front, h, id, hash, p, c);
        BelievesHeard(m, first, front, h, id, hash, p, c);
      } else {
        KnowsQuiet(m, first, front, h, id, hash, p, c);
        BelievesQuiet(m, first, front, h, id, hash, p, c);
      }
      assert front + [h] == hs;
    }
    BelievesOffers(RunFrames(first, hs, id, hash), first, hs, id, p, c);
  }

  // ---------------------------------------------------------------- when a channel opens

  /** A BITFIELD and an UNCHOKE; the bits are those of a bitfield with `length` chunks. */
  ghost predicate IsGreeting(frames: seq<Bytes>, id: Bytes, total: nat, length: nat, have: set<nat>) {
    && |frames| == 2
    && (exists bits :: Wire.IsBitfield(frames[0], id, total, bits)
          && |bits| == RequiredBytes(length) && Members(bits, length) == have)
    && Wire.IsUnchoke(frames[1], id)
  }

  lemma GreetingDecodes(frames: seq<Bytes>, id: Bytes, total: nat, length: nat, have: set<nat>) returns (bits: Bytes)
    requires IsGreeting(frames, id, total, length, have) && total < 0x1_0000_0000
    ensures |bits| == RequiredBytes(length) && Members(bits, length) == have
    ensures Wire.DecodeMessage(frames[1]) == Success(Wire.Unchoke(id))
    ensures Wire.DecodeMessage(frames[0]) ==
      if RequiredBytes(length) == RequiredBytes(total) then Success(Wire.Bitfield(id, total, bits))
      else Failure(Wire.BitfieldLengthMismatch)
  {
    hide Wire.DecodeMessage, Wire.Headed, Wire.Holds, Members;
    bits :| Wire.IsBitfield(frames[0], id, total, bits) && |bits| == RequiredBytes(length)
      && Members(bits, length) == have;
    Wire.LayoutRead(frames[0], 1, id, total);
    Wire.LayoutRead(frames[1], 6, id, 0);
    RequiredExactly(total, |bits|);
  }

  function Greeted(m: Mesh, p: PeerId, frames: seq<Bytes>, id: Bytes, first: Sends, second: Sends,
                   hash: Bytes -> Digest): Mesh
    requires |frames| == 2
  {
    Next(Next(m, Frame(p, frames[0], first), id, hash), Frame(p, frames[1], second), id, hash)
  }

  lemma HasOffers(s: Scheduler, p: PeerId, c: nat)
    ensures Offers(s, p, c) <==> Has(s, p, c) && Unchoked(s, p)
  {
  }

  /**
   * Whoever downloads the resource takes from a greeting exactly the bits of the greeter as the
   * peer's chunks, and may ask for them, whatever it knew before.
   */
  lemma GreetingHeard(m: Mesh, p: PeerId, frames: seq<Bytes>, id: Bytes, total: nat, have: set<nat>, first: Sends,
                      second: Sends, hash: Bytes -> Digest, c: nat)
    requires IsGreeting(frames, id, total, total, have) && total < 0x1_0000_0000
    requires p in m.shared ==> p in m.s.peers.vals
    ensures var t := Greeted(m, p, frames, id, first, second, hash);
      (Offers(t.s, p, c) <==> c in have) && (NotedIn(t, p, c) <==> c in have)
  {
    hide Wire.DecodeMessage, Next, Offers, NotedIn, Members, Has, LengthIn, Unchoked;
    var bits := GreetingDecodes(frames, id, total, total, have);
    var h, g := Frame(p, frames[0], first), Frame(p, frames[1], second);
    var t := Next(m, h, id, hash);
    FrameHeard(m, h, id, hash, p, c);
    FrameNoted(m, h, id, hash, p, c);
    FrameHeard(t, g, id, hash, p, c);
    FrameNoted(t, g, id, hash, p, c);
    HasOffers(Next(t, g, id, hash).s, p, c);
  }

  lemma BitsBelow(bits: Bytes, length: nat, total: nat, c: nat)
    requires c < length && c < total && |bits| == RequiredBytes(length) == RequiredBytes(total)
    ensures c in Members(bits, length) <==> c in Members(bits, total)
  {
  }

  /**
   * A greeting with the bits of another download, of `length` chunks, is refused if and only if
   * the two lengths take different numbers of bytes; otherwise the other download's chunks are
   * taken for chunks of this resource.
   */
  lemma StaleGreetingHeard(m: Mesh, p: PeerId, frames: seq<Bytes>, id: Bytes, total: nat, length: nat, have: set<nat>,
                           first: Sends, second: Sends, hash: Bytes -> Digest, c: nat)
    requires IsGreeting(frames, id, total, length, have) && total < 0x1_0000_0000
    requires p in m.shared ==> p in m.s.peers.vals
    ensures var t := Greeted(m, p, frames, id, first, second, hash);
      if RequiredBytes(length) == RequiredBytes(total)
      then c < length && c < total ==> (Offers(t.s, p, c) <==> c in have)
      else Offers(t.s, p, c) <==> Has(m.s, p, c)
  {
    hide Wire.DecodeMessage, Next, Offers, Members, Has, LengthIn, Unchoked, RequiredBytes;
    var bits := GreetingDecodes(frames, id, total, length, have);
    var h, g := Frame(p, frames[0], first), Frame(p, frames[1], second);
    var t := Next(m, h, id, hash);
    FrameHeard(m, h, id, hash, p, c);
    FrameNoted(m, h, id, hash, p, c);
    FrameHeard(t, g, id, hash, p, c);
    HasOffers(Next(t, g, id, hash).s, p, c);
    if c < length && c < total && RequiredBytes(length) == RequiredBytes(total) {
      BitsBelow(bits, length, total, c);
    }
  }

  lemma SmallNumbers()
    ensures FromByte(0) == 0 && FromByte(1) == 1
  {
  }

  lemma TopBit()
    ensures Bit([0x80], 0)
  {
    assert Mask(0) == 0x80;
  }

  lemma FirstOfOne()
    ensures RequiredBytes(1) == 1 && Members([0x80], 1) == {0}
  {
    hide Bit;
    TopBit();
  }

  /**
   * A downloader of one chunk whose channel opens while its scheduler is still that of another
   * resource, of which it has the only chunk: the peer then asks it for a chunk that it lacks.
   */
  lemma StaleGreetingExample(m: Mesh, p: PeerId, first: Sends, second: Sends, hash: Bytes -> Digest)
    requires p in m.shared ==> p in m.s.peers.vals
    ensures var frames: seq<Bytes> := [[1, 1, 0, 0, 0, 0, 1, 0x80], [1, 6, 0]];
      IsGreeting(frames, [], 1, 1, {0}) && Offers(Greeted(m, p, frames, [], first, second, hash).s, p, 0)
  {
    hide FromByte, Greeted, Members, Offers;
    var frames: seq<Bytes> := [[1, 1, 0, 0, 0, 0, 1, 0x80], [1, 6, 0]];
    SmallNumbers();
    FirstOfOne();
    assert Wire.IsBitfield(frames[0], [], 1, [0x80]) by {
      assert frames[0][7..] == [0x80] && frames[0][3..3] == [];
    }
    assert Wire.IsUnchoke(frames[1], []);
    GreetingHeard(m, p, frames, [], 1, {0}, first, second, hash, 0);
  }
}
