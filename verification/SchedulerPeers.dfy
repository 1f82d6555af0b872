/** What the scheduler believes of its peers is what they said last. */
module SchedulerPeers {
  import opened Bytes
  import opened SchedulerModel
  import opened SchedulerPass
  import opened SchedulerSafety
  import opened SchedulerPotential
  import Reassembling

  /** The length of the bitfield that `p` announced last; before it announced one, the manifest's. */
  function Length(inputs: seq<Input>, total: nat, p: PeerId): nat {
    if inputs == [] then total
    else
      var event := inputs[|inputs| - 1].event;
      if event.GotBitfield? && event.peer == p then event.bits.total
      else if event == LostPeer(p) then total
      else Length(inputs[..|inputs| - 1], total, p)
  }

  /** The peer announced something since it was last gone. */
  predicate Known(inputs: seq<Input>, p: PeerId) {
    inputs != [] &&
    var event := inputs[|inputs| - 1].event;
    if (event.GotBitfield? || event.GotHave?) && event.peer == p then true
    else if event == LostPeer(p) then false
    else Known(inputs[..|inputs| - 1], p)
  }

  /** By the last that was heard of `p` and `c`, the peer has the chunk. */
  predicate Claims(inputs: seq<Input>, total: nat, p: PeerId, c: nat) {
    inputs != [] &&
    var front, event := inputs[..|inputs| - 1], inputs[|inputs| - 1].event;
    if event.GotBitfield? && event.peer == p then event.bits.Has(c)
    else if event == LostPeer(p) then false
    else if event == GotHave(p, c) && c < Length(front, total, p) then true
    else if event == SharedHave(p, c) && Known(front, p) && c < Length(front, total, p) then true
    else Claims(front, total, p, c)
  }

  /** By the last CHOKE or UNCHOKE since it joined, the peer refuses to serve. */
  predicate Refuses(inputs: seq<Input>, p: PeerId) {
    inputs != [] &&
    var event := inputs[|inputs| - 1].event;
    if event.GotChoke? && event.peer == p then event.choked
    else if event == LostPeer(p) then false
    else Refuses(inputs[..|inputs| - 1], p)
  }

  predicate Has(s: Scheduler, p: PeerId, c: nat) {
    p in s.peers.vals && s.peers.vals[p].Has(c)
  }

  function LengthIn(s: Scheduler, p: PeerId): nat {
    if p in s.peers.vals then s.peers.vals[p].total else s.manifest.total
  }

  /** The scheduler's view of one peer and one chunk. */
  ghost predicate SameView(s: Scheduler, t: Scheduler, p: PeerId, c: nat) {
    && (Has(t, p, c) <==> Has(s, p, c)) && (Unchoked(t, p) <==> Unchoked(s, p)) && LengthIn(t, p) == LengthIn(s, p)
    && (p in t.peers.vals <==> p in s.peers.vals)
  }

  ghost predicate Tracks(s: Scheduler, inputs: seq<Input>, total: nat, p: PeerId, c: nat) {
    && s.manifest.total == total
    && (p in s.peers.vals <==> Known(inputs, p))
    && (Has(s, p, c) <==> Claims(inputs, total, p, c))
    && (Unchoked(s, p) <==> !Refuses(inputs, p))
    && LengthIn(s, p) == Length(inputs, total, p)
  }

  ghost predicate SamePeers(s: Scheduler, t: Scheduler) {
    t.peers == s.peers && t.choked == s.choked && t.manifest == s.manifest
  }

  lemma ScheduleNextKeepsPeers(s: Scheduler, sends: Sends)
    ensures SamePeers(s, ScheduleNext(s, sends))
  {
    PassGrows(s, sends);
  }

  /** How an event changes the view: not at all, unless the peer says or does something. */
  ghost predicate Reflects(s: Scheduler, t: Scheduler, event: Event, p: PeerId, c: nat) {
    if event.GotBitfield? && event.peer == p then
      && (Has(t, p, c) <==> event.bits.Has(c)) && (Unchoked(t, p) <==> Unchoked(s, p))
      && LengthIn(t, p) == event.bits.total && p in t.peers.vals
    else if event == LostPeer(p) then
      !Has(t, p, c) && Unchoked(t, p) && LengthIn(t, p) == s.manifest.total && p !in t.peers.vals
    else if event.GotHave? && event.peer == p then
      && (Has(t, p, c) <==> Has(s, p, c) || (event.chunk == c && c < LengthIn(s, p)))
      && (Unchoked(t, p) <==> Unchoked(s, p)) && LengthIn(t, p) == LengthIn(s, p) && p in t.peers.vals
    else if event == SharedHave(p, c) && p in s.peers.vals && c < LengthIn(s, p) then
      Has(t, p, c) && (Unchoked(t, p) <==> Unchoked(s, p)) && LengthIn(t, p) == LengthIn(s, p) && p in t.peers.vals
    else if event.GotChoke? && event.peer == p then
      && (Has(t, p, c) <==> Has(s, p, c)) && (Unchoked(t, p) <==> !event.choked) && LengthIn(t, p) == LengthIn(s, p)
      && (p in t.peers.vals <==> p in s.peers.vals)
    else SameView(s, t, p, c)
  }

  lemma PieceKeepsPeers(s: Scheduler, c: nat, offset: nat, total: nat, data: Bytes)
    ensures SamePeers(s, HandlePiece(s, c, offset, total, data))
  {
    hide Reassembling.Complete, Reassembling.Overruns, Reassembling.Assembled, Received, PhaseFor;
  }

  lemma WaitingKeepsPeers(s: Scheduler, i: nat, data: Bytes)
    ensures SamePeers(s, Fetched(s, i, data)) && SamePeers(s, Rejected(s, i)) && SamePeers(s, Resumed(s, i))
  {
    hide PhaseFor;
  }

  lemma DataKeepsPeers(s: Scheduler, input: Input, hash: Bytes -> Digest)
    requires input.event.GotPiece? || input.event.FetchResolved? || input.event.VerifyResolved?
      || input.event.PutResolved? || input.event.AwaitRejected? || input.event.Continued?
    ensures SamePeers(s, Before(s, input, hash))
  {
    hide HandlePiece, Fetched, Rejected, Resumed, Verified, Stored, Requeue, ScheduleChunk, Marked;
    if input.event.GotPiece? {
      PieceKeepsPeers(s, input.event.chunk, input.event.offset, input.event.total, input.event.data);
    } else {
      WaitingKeepsPeers(s, input.event.task, if input.event.FetchResolved? then input.event.data else []);
      VerifyingLeaves(s, input.event.task, hash);
      StoringLeaves(s, input.event.task);
    }
  }

  lemma RequestsKeepPeers(s: Scheduler, input: Input, hash: Bytes -> Digest)
    requires input.event.Started? || input.event.Stopped? || input.event.TimedOut?
    ensures SamePeers(s, Before(s, input, hash))
  {
    hide ScheduleChunk;
    if input.event.TimedOut? && input.event.chunk in s.inFlight.vals {
      var c := input.event.chunk;
      ChunkKeepsRest(Abandon(s, c), c, s.inFlight.vals[c].retries + 1, input.sends);
    }
  }

  lemma PeersChange(s: Scheduler, q: PeerId, bits: PeerBits, event: Event, p: PeerId, c: nat)
    ensures event == GotBitfield(q, bits) ==>
      Reflects(s, s.(peers := s.peers.Set(q, bits),
                     choked := if q in s.choked then s.choked else s.choked[q := false]), event, p, c)
    ensures event == LostPeer(q) ==> Reflects(s, Forget(s, q), event, p, c)
  {
  }

  lemma ChokeChanges(s: Scheduler, q: PeerId, choked: bool, p: PeerId, c: nat)
    ensures Reflects(s, s.(choked := s.choked[q := choked]), GotChoke(q, choked), p, c)
  {
  }

  lemma KnownSame(s: Scheduler, q: PeerId, p: PeerId, c: nat)
    ensures var t := KnownPeer(s, q);
      && (Has(t, p, c) <==> Has(s, p, c)) && LengthIn(t, p) == LengthIn(s, p) && t == s.(peers := t.peers)
      && (p in t.peers.vals <==> p in s.peers.vals || p == q)
      && q in t.peers.vals && t.peers.vals[q].total == LengthIn(s, q)
  {
  }

  lemma BitSet(s: Scheduler, q: PeerId, d: nat, p: PeerId, c: nat)
    requires q in s.peers.vals && d < s.peers.vals[q].total
    ensures var bits := s.peers.vals[q];
      var t := s.(peers := s.peers.Set(q, bits.(bits := bits.bits + {d})));
      && (Has(t, p, c) <==> Has(s, p, c) || (p == q && c == d)) && LengthIn(t, p) == LengthIn(s, p)
      && (p in t.peers.vals <==> p in s.peers.vals)
  {
  }

  lemma HaveChanges(s: Scheduler, q: PeerId, d: nat, p: PeerId, c: nat)
    ensures Reflects(s, Marked(s, q, d), GotHave(q, d), p, c) && Marked(s, q, d).manifest == s.manifest
  {
    hide KnownPeer, Has, LengthIn;
    KnownSame(s, q, p, c);
    var t := KnownPeer(s, q);
    if d < t.peers.vals[q].total {
      BitSet(t, q, d, p, c);
    }
  }

  lemma SharedChanges(s: Scheduler, q: PeerId, d: nat, p: PeerId, c: nat)
    ensures Reflects(s, MarkShared(s, q, d), SharedHave(q, d), p, c) && MarkShared(s, q, d).manifest == s.manifest
  {
    hide Has;
    if q in s.peers.vals && d < s.peers.vals[q].total {
      BitSet(s, q, d, p, c);
    }
  }

  lemma SameReflects(s: Scheduler, t: Scheduler, u: Scheduler, event: Event, p: PeerId, c: nat)
    requires SamePeers(t, u) && Reflects(s, t, event, p, c)
    ensures Reflects(s, u, event, p, c)
  {
  }

  lemma NothingSaid(s: Scheduler, t: Scheduler, event: Event, p: PeerId, c: nat)
    requires SamePeers(s, t)
    requires !event.GotBitfield? && !event.GotHave? && !event.SharedHave? && !event.GotChoke? && !event.LostPeer?
    ensures Reflects(s, t, event, p, c)
  {
  }

  lemma ForgetKeepsManifest(s: Scheduler, p: PeerId)
    ensures Forget(s, p).manifest == s.manifest
  {
  }

  lemma BeforeView(s: Scheduler, input: Input, hash: Bytes -> Digest, p: PeerId, c: nat)
    ensures var t := Before(s, input, hash);
      t.manifest == s.manifest && Reflects(s, t, input.event, p, c)
  {
    hide Reflects, ScheduleChunk, Requeue, HandlePiece, Fetched, Rejected, Resumed, Verified, Stored, Marked,
      MarkShared, Forget;
    var event, t := input.event, Before(s, input, hash);
    if event.GotBitfield? {
      PeersChange(s, event.peer, event.bits, event, p, c);
    } else if event.LostPeer? {
      PeersChange(s, event.peer, PeerBits(0, {}), event, p, c);
      RequeueKeepsRest(Forget(s, event.peer), s.inFlight, event.peer, |s.inFlight.keys|, input.sends);
      SameReflects(s, Forget(s, event.peer), t, event, p, c);
      ForgetKeepsManifest(s, event.peer);
    } else if event.GotChoke? {
      ChokeChanges(s, event.peer, event.choked, p, c);
    } else if event.GotHave? {
      HaveChanges(s, event.peer, event.chunk, p, c);
    } else if event.SharedHave? {
      SharedChanges(s, event.peer, event.chunk, p, c);
    } else {
      if event.Started? || event.Stopped? || event.TimedOut? {
        RequestsKeepPeers(s, input, hash);
      } else {
        DataKeepsPeers(s, input, hash);
      }
      NothingSaid(s, t, event, p, c);
    }
  }

  lemma TracksOn(s: Scheduler, t: Scheduler, front: seq<Input>, last: Input, total: nat, p: PeerId, c: nat)
    requires Tracks(s, front, total, p, c) && t.manifest == s.manifest && Reflects(s, t, last.event, p, c)
    ensures Tracks(t, front + [last], total, p, c)
  {
    assert (front + [last])[..|front|] == front;
  }

  lemma SameTracks(s: Scheduler, t: Scheduler, inputs: seq<Input>, total: nat, p: PeerId, c: nat)
    requires SamePeers(s, t) && Tracks(s, inputs, total, p, c)
    ensures Tracks(t, inputs, total, p, c)
  {
  }

  // ---------------------------------------------------------------- the bitfields after each handler

  lemma AnnouncedPeers(s: Scheduler, p: PeerId, bits: PeerBits, sends: Sends)
    ensures UpdatePeerBitfield(s, p, bits, sends).peers == s.peers.Set(p, bits)
  {
    hide ScheduleNext;
    var t := s.(peers := s.peers.Set(p, bits), choked := if p in s.choked then s.choked else s.choked[p := false]);
    ScheduleNextKeepsPeers(t, sends);
  }

  lemma SharedPeers(s: Scheduler, p: PeerId, c: nat)
    requires p in s.peers.vals && c < s.peers.vals[p].total
    ensures var bits := s.peers.vals[p];
      MarkShared(s, p, c).peers == s.peers.Set(p, bits.(bits := bits.bits + {c}))
  {
  }

  lemma HavePeers(s: Scheduler, p: PeerId, c: nat, sends: Sends)
    ensures UpdatePeerHave(s, p, c, sends).peers == Marked(s, p, c).peers
    ensures forall q :: q != p && q in s.peers.vals ==>
      q in Marked(s, p, c).peers.vals && Marked(s, p, c).peers.vals[q] == s.peers.vals[q]
    ensures p in s.peers.vals && c in s.peers.vals[p].bits ==>
      p in Marked(s, p, c).peers.vals && Marked(s, p, c).peers.vals[p] == s.peers.vals[p]
  {
    hide ScheduleNext;
    ScheduleNextKeepsPeers(Marked(s, p, c), sends);
    if p in s.peers.vals && c in s.peers.vals[p].bits {
      assert s.peers.vals[p].bits + {c} == s.peers.vals[p].bits;
    }
  }

  lemma ChokePeers(s: Scheduler, p: PeerId, choked: bool, sends: Sends)
    ensures SetPeerChoked(s, p, choked, sends).peers == s.peers
  {
    hide ScheduleNext;
    ScheduleNextKeepsPeers(s.(choked := s.choked[p := choked]), sends);
  }

  lemma RemovedPeers(s: Scheduler, p: PeerId, sends: Sends)
    ensures RemovePeer(s, p, sends).peers == s.peers.Delete(p)
  {
    hide ScheduleNext, Requeue;
    var t := Requeue(Forget(s, p), s.inFlight, p, |s.inFlight.keys|, sends);
    RequeueKeepsRest(Forget(s, p), s.inFlight, p, |s.inFlight.keys|, sends);
    ScheduleNextKeepsPeers(t, sends);
  }

  lemma TracksFirst(manifest: Manifest, have: set<nat>, store: map<nat, Bytes>, p: PeerId, c: nat)
    ensures Tracks(Initial(manifest, have, store), [], manifest.total, p, c)
  {
  }

  lemma TracksOffers(s: Scheduler, inputs: seq<Input>, total: nat, p: PeerId, c: nat)
    requires Tracks(s, inputs, total, p, c)
    ensures Offers(s, p, c) <==> Claims(inputs, total, p, c) && !Refuses(inputs, p)
  {
  }

  /**
   * Over any interleaving, a peer is asked for a chunk only on the strength of what it said last:
   * it is a candidate if and only if it claims the chunk and does not refuse.
   */
  lemma {:induction false} OffersExactly(manifest: Manifest, have: set<nat>, store: map<nat, Bytes>, inputs: seq<Input>,
                                         hash: Bytes -> Digest, p: PeerId, c: nat)
    ensures var t := Run(Initial(manifest, have, store), inputs, hash);
      && Tracks(t, inputs, manifest.total, p, c)
      && (Offers(t, p, c) <==> Claims(inputs, manifest.total, p, c) && !Refuses(inputs, p))
  {
    hide Before, Step, Schedules, ScheduleNext, Tracks, Reflects, SamePeers, Offers, Claims, Refuses, Known, Initial;
    if inputs == [] {
      TracksFirst(manifest, have, store, p, c);
    } else {
      var front, last := inputs[..|inputs| - 1], inputs[|inputs| - 1];
      var s := Run(Initial(manifest, have, store), front, hash);
      OffersExactly(manifest, have, store, front, hash, p, c);
      StepSplits(s, last, hash);
      var b := Before(s, last, hash);
      BeforeView(s, last, hash, p, c);
      TracksOn(s, b, front, last, manifest.total, p, c);
      assert front + [last] == inputs;
      ScheduleNextKeepsPeers(b, last.sends);
      SameTracks(b, ScheduleNext(b, last.sends), inputs, manifest.total, p, c);
    }
    TracksOffers(Run(Initial(manifest, have, store), inputs, hash), inputs, manifest.total, p, c);
  }
}
