/** The scheduler as an object. Each handler is proved to do what the model's step says. */
module ChunkSchedulers {
  import opened Bitfields
  import opened Bytes
  import opened OrderedMaps
  import opened SchedulerModel
  import Model = SchedulerModel
  import SchedulerPass
  import Reassembling

  /** Those of `cs` that were asked of `p`. */
  ghost function CarriedAmong(requests: OrderedMap<nat, Request>, cs: seq<nat>, p: PeerId): (r: set<nat>)
    requires forall c :: c in cs ==> c in requests.vals
    ensures forall c :: c in r <==> c in cs && requests.vals[c].peer == p
  {
    if cs == [] then {}
    else
      var last := cs[|cs| - 1];
      CarriedAmong(requests, cs[..|cs| - 1], p) + if requests.vals[last].peer == p then {last} else {}
  }

  lemma NothingCarried(requests: OrderedMap<nat, Request>, p: PeerId)
    ensures CarriedAmong(requests, [], p) == {}
  {
  }

  lemma CarriedMore(requests: OrderedMap<nat, Request>, cs: seq<nat>, c: nat, p: PeerId)
    requires c !in cs && forall x :: x in cs + [c] ==> x in requests.vals
    ensures forall x :: x in cs ==> x in requests.vals
    ensures |CarriedAmong(requests, cs + [c], p)| ==
      |CarriedAmong(requests, cs, p)| + if requests.vals[c].peer == p then 1 else 0
  {
    assert (cs + [c])[..|cs|] == cs;
    assert forall x :: x in cs ==> x in cs + [c];
  }

  lemma AllCarried(s: Scheduler, p: PeerId)
    ensures CarriedAmong(s.inFlight, s.inFlight.keys, p) == Carried(s, p)
  {
    assert forall c: nat :: c in s.inFlight.keys <==> c in s.inFlight.vals.Keys;
  }

  lemma RequeueMore(s: Scheduler, lost: OrderedMap<nat, Request>, p: PeerId, k: nat, sends: Sends)
    requires k < |lost.keys|
    ensures var c, t := lost.keys[k], Requeue(s, lost, p, k, sends);
      Requeue(s, lost, p, k + 1, sends) ==
        if lost.vals[c].peer == p then Model.ScheduleChunk(Abandon(t, c), c, lost.vals[c].retries + 1, sends) else t
  {
    hide Model.ScheduleChunk;
  }

  /** `Uint8Array.prototype.set` */
  method CopyInto(buffer: array<bv8>, offset: nat, slice: Bytes)
    requires offset + |slice| <= buffer.Length
    modifies buffer
    ensures buffer[..] == Reassembling.Overlay(old(buffer[..]), offset, slice)
  {
    for i := 0 to |slice|
      invariant forall j :: 0 <= j < buffer.Length ==>
        buffer[j] == if offset <= j < offset + i then slice[j - offset] else old(buffer[j])
    {
      buffer[offset + i] := slice[i];
    }
  }

  class ChunkScheduler {
    const manifest: Manifest
    var isRunning: bool
    var localBitfield: set<nat>
    var peerBitfields: OrderedMap<PeerId, PeerBits>
    var peerChoked: map<PeerId, bool>
    var inFlight: OrderedMap<nat, Request>
    var reassembly: map<nat, Reassembling.Reassembly>
    var originInFlight: set<nat>
    /** The suspended calls of `verifyAndStoreChunk`. */
    var tasks: seq<Task>
    /** The chunk store, for this resource. */
    var chunkStore: map<nat, Bytes>
    /** The calls of `broadcastToPeers`, `onChunkCompleted` and `onDownloadComplete`. */
    var log: seq<Output>

    ghost function State(): Scheduler
      reads this
    {
      Scheduler(manifest, isRunning, localBitfield, peerBitfields, peerChoked, inFlight, reassembly,
                originInFlight, tasks, chunkStore, log)
    }

    constructor (manifest: Manifest, chunkStore: map<nat, Bytes>, localBitfield: set<nat>)
      ensures State() ==
        Scheduler(manifest, false, localBitfield, Empty(), map[], Empty(), map[], {}, [], chunkStore, [])
    {
      this.manifest := manifest;
      this.chunkStore := chunkStore;
      this.localBitfield := localBitfield;
      peerBitfields := Empty();
      peerChoked := map[];
      inFlight := Empty();
      reassembly := map[];
      originInFlight := {};
      isRunning := false;
      tasks := [];
      log := [];
    }

    // -------------------------------------------------------------- queries

    method IsComplete() returns (complete: bool)
      ensures complete == Complete(State())
    {
      var count := 0;
      for i := 0 to manifest.total
        invariant 0 <= count <= i
        invariant count == i <==> forall j :: 0 <= j < i ==> j in localBitfield
      {
        if i in localBitfield {
          count := count + 1;
        }
      }
      complete := count == manifest.total;
    }

    method GetMissingIndices() returns (missing: seq<nat>)
      ensures missing == MissingBelow(localBitfield, manifest.total)
    {
      missing := [];
      for i := 0 to manifest.total
        invariant missing == MissingBelow(localBitfield, i)
      {
        hide MissingBelow;
        ListsStep(localBitfield, i);
        if i !in localBitfield {
          missing := missing + [i];
        }
      }
    }

    method GetCandidates() returns (candidates: seq<nat>)
      ensures candidates == Candidates(State())
    {
      var missing := GetMissingIndices();
      candidates := [];
      SchedulerPass.NothingListed(State());
      hide NotOutstanding, MissingBelow;
      for i := 0 to |missing|
        invariant candidates == NotOutstanding(State(), missing[..i])
      {
        assert missing[..i + 1] == missing[..i] + [missing[i]];
        SchedulerPass.NotOutstandingMore(State(), missing[..i], missing[i]);
        if missing[i] !in inFlight.vals && missing[i] !in originInFlight {
          candidates := candidates + [missing[i]];
        }
      }
      assert missing[..|missing|] == missing;
    }

    method CountInFlightForPeer(p: PeerId) returns (count: nat)
      ensures count == Load(State(), p)
    {
      hide CarriedAmong;
      count := 0;
      NothingCarried(inFlight, p);
      for i := 0 to |inFlight.keys|
        invariant count == |CarriedAmong(inFlight, inFlight.keys[..i], p)|
      {
        assert inFlight.keys[..i + 1] == inFlight.keys[..i] + [inFlight.keys[i]];
        var c := inFlight.keys[i];
        CarriedMore(inFlight, inFlight.keys[..i], c, p);
        if inFlight.vals[c].peer == p {
          count := count + 1;
        }
      }
      assert inFlight.keys[..|inFlight.keys|] == inFlight.keys;
      AllCarried(State(), p);
    }

    method EligiblePeers(c: nat) returns (eligible: seq<PeerId>)
      ensures eligible == Eligible(State(), c)
    {
      hide Offering;
      eligible := [];
      SchedulerPass.NothingListed(State());
      var ps := peerBitfields.keys;
      for i := 0 to |ps|
        invariant eligible == Offering(State(), ps[..i], c)
      {
        assert ps[..i + 1] == ps[..i] + [ps[i]];
        SchedulerPass.OfferingMore(State(), ps[..i], ps[i], c);
        assert ps[i] in peerBitfields.vals.Keys;
        var choked := ps[i] in peerChoked && peerChoked[ps[i]];
        if !choked && peerBitfields.vals[ps[i]].Has(c) {
          eligible := eligible + [ps[i]];
        }
      }
      assert ps[..|ps|] == ps;
    }

    method PeersBelowLimit(ps: seq<PeerId>) returns (free: seq<PeerId>)
      ensures free == BelowLimit(State(), ps)
    {
      hide BelowLimit, Load;
      free := [];
      SchedulerPass.NothingListed(State());
      for i := 0 to |ps|
        invariant free == BelowLimit(State(), ps[..i])
      {
        assert ps[..i + 1] == ps[..i] + [ps[i]];
        SchedulerPass.BelowLimitMore(State(), ps[..i], ps[i]);
        var load := CountInFlightForPeer(ps[i]);
        if load < MAX_IN_FLIGHT_PER_PEER {
          free := free + [ps[i]];
        }
      }
      assert ps[..|ps|] == ps;
    }

    /** The head of `ps` after its in-place sort by load: the first peer with the least load. */
    method SelectPeer(ps: seq<PeerId>) returns (selected: PeerId)
      requires ps != []
      ensures selected == ByLoad(State(), ps)[0]
    {
      selected := ps[0];
      var least := CountInFlightForPeer(selected);
      ghost var at := 0;
      for i := 1 to |ps|
        invariant 0 <= at < i && selected == ps[at] && least == Load(State(), selected)
        invariant forall j :: 0 <= j < i ==> least <= Load(State(), ps[j])
        invariant forall j :: 0 <= j < at ==> least < Load(State(), ps[j])
      {
        var load := CountInFlightForPeer(ps[i]);
        if load < least {
          selected, least, at := ps[i], load, i;
        }
      }
      SchedulerPass.FirstLeast(State(), ps, at);
    }

    // -------------------------------------------------------------- dispatching one chunk

    method DispatchOriginFallback(c: nat)
      modifies this
      ensures State() == DispatchOrigin(old(State()), c)
    {
      if c in localBitfield || c in originInFlight {
        return;
      }
      originInFlight := originInFlight + {c};
      tasks := tasks + [Task(c, false, Fetching)];
    }

    method DispatchP2PRequest(c: nat, p: PeerId, retries: nat, sends: Sends)
      requires retries <= REQUEST_RETRIES
      modifies this
      ensures State() == DispatchP2P(old(State()), c, p, retries, sends)
      decreases REQUEST_RETRIES + 1 - retries, 0
    {
      var sent := sends(c, p, retries);
      if !sent {
        ScheduleChunk(c, retries + 1, sends);
        return;
      }
      inFlight := inFlight.Set(c, Request(p, retries));
    }

    method ScheduleChunk(c: nat, retries: nat, sends: Sends)
      modifies this
      ensures State() == Model.ScheduleChunk(old(State()), c, retries, sends)
      decreases if retries <= REQUEST_RETRIES then REQUEST_RETRIES + 1 - retries else 0, 1
    {
      if c in localBitfield {
        return;
      }
      if retries <= REQUEST_RETRIES {
        var eligible := EligiblePeers(c);
        if |eligible| > 0 {
          var selected := SelectPeer(eligible);
          DispatchP2PRequest(c, selected, retries, sends);
          return;
        }
      }
      DispatchOriginFallback(c);
    }

    // -------------------------------------------------------------- the scheduling pass

    method MeasureRarity(candidates: seq<nat>) returns (entries: seq<Rarity>)
      ensures entries == RarityMap(State(), candidates)
    {
      entries := [];
      for i := 0 to |candidates|
        invariant entries == RarityMap(State(), candidates[..i])
      {
        assert candidates[..i + 1][..i] == candidates[..i];
        var eligible := EligiblePeers(candidates[i]);
        entries := entries + [Rarity(candidates[i], |eligible|, eligible)];
      }
      assert candidates[..|candidates|] == candidates;
    }

    method DispatchAvailable(entries: seq<Rarity>, sends: Sends)
      modifies this
      ensures State() == PeerPass(old(State()), entries, |entries|, sends)
    {
      hide DispatchP2P, BelowLimit, ByLoad;
      ghost var s := State();
      var k := 0;
      while k < |entries|
        invariant k <= |entries|
        invariant State() == PeerPass(s, entries, k, sends)
      {
        if |inFlight.vals| + |originInFlight| >= MAX_TOTAL_IN_FLIGHT {
          SchedulerPass.PeerPassStays(s, entries, k, |entries|, sends);
          break;
        }
        var free := PeersBelowLimit(entries[k].peers);
        if |free| > 0 {
          var selected := SelectPeer(free);
          DispatchP2PRequest(entries[k].chunk, selected, 0, sends);
        }
        k := k + 1;
      }
    }

    method DispatchUnavailable(entries: seq<Rarity>)
      modifies this
      ensures State() == OriginPass(old(State()), entries, |entries|)
    {
      hide DispatchOrigin;
      ghost var s := State();
      var k := 0;
      while k < |entries|
        invariant k <= |entries|
        invariant State() == OriginPass(s, entries, k)
      {
        hide OriginPass;
        SchedulerPass.OriginPassStep(s, entries, k);
        if |inFlight.vals| + |originInFlight| >= MAX_TOTAL_IN_FLIGHT {
          SchedulerPass.OriginPassStays(s, entries, k, |entries|);
          break;
        }
        DispatchOriginFallback(entries[k].chunk);
        k := k + 1;
      }
    }

    method ScheduleNext(sends: Sends)
      modifies this
      ensures State() == Model.ScheduleNext(old(State()), sends)
    {
      var complete := IsComplete();
      if !isRunning || complete {
        if complete {
          log := log + [DownloadComplete];
        }
        return;
      }
      if |inFlight.vals| + |originInFlight| >= MAX_TOTAL_IN_FLIGHT {
        return;
      }
      ghost var s := State();
      var candidates := GetCandidates();
      if |candidates| == 0 {
        return;
      }
      var rarityMap := MeasureRarity(candidates);
      var available := ByRarity(Select(rarityMap, true));
      var unavailable := Select(rarityMap, false);
      DispatchAvailable(available, sends);
      DispatchUnavailable(unavailable);
    }

    // -------------------------------------------------------------- public methods

    method Start(sends: Sends)
      modifies this
      ensures State() == Model.Start(old(State()), sends)
    {
      if isRunning {
        return;
      }
      isRunning := true;
      ScheduleNext(sends);
    }

    method Stop()
      modifies this
      ensures State() == Model.Stop(old(State()))
    {
      isRunning := false;
      inFlight := Empty();
      reassembly := map[];
      originInFlight := {};
    }

    method UpdatePeerBitfield(p: PeerId, bits: PeerBits, sends: Sends)
      modifies this
      ensures State() == Model.UpdatePeerBitfield(old(State()), p, bits, sends)
    {
      peerBitfields := peerBitfields.Set(p, bits);
      if p !in peerChoked {
        peerChoked := peerChoked[p := false];
      }
      if isRunning {
        ScheduleNext(sends);
      }
    }

    /** Reports whether `Bitfield.set` threw a `RangeError`. */
    method UpdatePeerHave(p: PeerId, c: nat, sends: Sends) returns (threw: bool)
      modifies this
      ensures State() == Model.UpdatePeerHave(old(State()), p, c, sends)
      ensures threw <==> c >= if p in old(peerBitfields).vals then old(peerBitfields).vals[p].total else manifest.total
    {
      if p !in peerBitfields.vals {
        peerBitfields := peerBitfields.Set(p, PeerBits(manifest.total, {}));
      }
      var bits := peerBitfields.vals[p];
      if c >= bits.total {
        return true;
      }
      peerBitfields := peerBitfields.Set(p, bits.(bits := bits.bits + {c}));
      if isRunning {
        ScheduleNext(sends);
      }
      return false;
    }

    /** The owner of a bitfield that was handed over with `updatePeerBitfield` sets a bit of it. */
    method BitfieldMarked(p: PeerId, c: nat)
      modifies this
      ensures State() == MarkShared(old(State()), p, c)
    {
      if p in peerBitfields.vals && c < peerBitfields.vals[p].total {
        var bits := peerBitfields.vals[p];
        peerBitfields := peerBitfields.Set(p, bits.(bits := bits.bits + {c}));
      }
    }

    method SetPeerChoked(p: PeerId, choked: bool, sends: Sends)
      modifies this
      ensures State() == Model.SetPeerChoked(old(State()), p, choked, sends)
    {
      peerChoked := peerChoked[p := choked];
      if !choked && isRunning {
        ScheduleNext(sends);
      }
    }

    /** The request for a chunk and its collected blocks are deleted. */
    method AbandonRequest(c: nat)
      modifies `inFlight, `reassembly
      ensures State() == Abandon(old(State()), c)
    {
      inFlight := inFlight.Delete(c);
      reassembly := reassembly - {c};
    }

    method ForgetPeer(p: PeerId)
      modifies `peerBitfields, `peerChoked
      ensures State() == Forget(old(State()), p)
    {
      peerBitfields := peerBitfields.Delete(p);
      peerChoked := peerChoked - {p};
    }

    method RemovePeer(p: PeerId, sends: Sends)
      modifies this
      ensures State() == Model.RemovePeer(old(State()), p, sends)
    {
      hide Model.ScheduleNext, Model.ScheduleChunk, Abandon, Forget;
      var lost := inFlight;
      ForgetPeer(p);
      ghost var s := State();
      assert Requeue(s, lost, p, 0, sends) == s;
      for k := 0 to |lost.keys|
        invariant State() == Requeue(s, lost, p, k, sends)
      {
        hide Requeue;
        RequeueMore(s, lost, p, k, sends);
        var c := lost.keys[k];
        if lost.vals[c].peer == p {
          AbandonRequest(c);
          ScheduleChunk(c, lost.vals[c].retries + 1, sends);
        }
      }
      if isRunning {
        ScheduleNext(sends);
      }
    }

    method HandleTimeout(c: nat, sends: Sends)
      modifies this
      ensures State() == Model.HandleTimeout(old(State()), c, sends)
    {
      hide Model.ScheduleNext, Model.ScheduleChunk;
      if c !in inFlight.vals {
        return;
      }
      var req := inFlight.vals[c];
      AbandonRequest(c);
      ScheduleChunk(c, req.retries + 1, sends);
      ScheduleNext(sends);
    }

    // -------------------------------------------------------------- arriving data

    static predicate Throws(s: Scheduler, c: nat, offset: nat, total: nat, data: Bytes) {
      && c in s.inFlight.vals
      && Reassembling.Complete(Received(s, c, offset, total, data))
      && Reassembling.Overruns(Received(s, c, offset, total, data))
    }

    /** `handlePiece` up to its `await`. Reports whether copying a block threw a `RangeError`. */
    method HandlePiece(c: nat, offset: nat, total: nat, data: Bytes) returns (threw: bool)
      modifies this
      ensures State() == Model.HandlePiece(old(State()), c, offset, total, data)
      ensures threw == Throws(old(State()), c, offset, total, data)
    {
      hide Reassembling.Overruns, Reassembling.Assembled, PhaseFor;
      if c !in inFlight.vals {
        return false;
      }
      var item := if c in reassembly then reassembly[c] else Reassembling.Fresh(total);
      if offset !in item.parts.vals {
        item := item.(parts := item.parts.Set(offset, data), received := item.received + |data|);
      }
      reassembly := reassembly[c := item];
      if item.received >= item.total {
        AbandonRequest(c);
        assert reassembly == old(reassembly) - {c};
        var assembled, overrun := Assemble(item);
        if overrun {
          return true;
        }
        BeginVerifying(c, assembled);
      }
      return false;
    }

    method Assemble(item: Reassembling.Reassembly) returns (assembled: Bytes, overrun: bool)
      ensures overrun == Reassembling.Overruns(item)
      ensures !overrun ==> assembled == Reassembling.Assembled(item)
    {
      var buffer := new bv8[item.total](_ => 0);
      var parts: OrderedMap<nat, Bytes> := item.parts;
      assert !Reassembling.Overruns(item) ==> buffer[..] == Reassembling.Copied(item, 0);
      for k := 0 to |parts.keys|
        invariant forall j :: 0 <= j < k ==> parts.keys[j] + |parts.vals[parts.keys[j]]| <= item.total
        invariant !Reassembling.Overruns(item) ==> buffer[..] == Reassembling.Copied(item, k)
      {
        var offset: nat := parts.keys[k];
        var slice := parts.vals[offset];
        if offset + |slice| > item.total {
          return [], true;
        }
        CopyInto(buffer, offset, slice);
      }
      return buffer[..], false;
    }

    /** `verifyAndStoreChunk` for a peer's chunk, up to its first `await`. */
    method BeginVerifying(c: nat, data: Bytes)
      modifies this
      ensures State() == old(State()).(tasks := old(tasks) + [Task(c, true, PhaseFor(manifest, c, data))])
    {
      if c !in manifest.expected {
        tasks := tasks + [Task(c, true, Settling)];
        return;
      }
      tasks := tasks + [Task(c, true, Verifying(data))];
    }

    method OriginAnswers(i: nat, data: Bytes)
      modifies this
      ensures State() == Fetched(old(State()), i, data)
    {
      if i < |tasks| && tasks[i].phase.Fetching? {
        var phase := if tasks[i].chunk in manifest.expected then Verifying(data) else Settling;
        tasks := tasks[i := tasks[i].(phase := phase)];
      }
    }

    /** The rest of `verifyAndStoreChunk` when the hash is known, up to `await put`. */
    method HashComputed(i: nat, hash: Bytes -> Digest)
      modifies this
      ensures State() == Verified(old(State()), i, hash)
    {
      if i < |tasks| && tasks[i].phase.Verifying? {
        var task := tasks[i];
        var valid := task.chunk in manifest.expected && hash(task.phase.data) == manifest.expected[task.chunk];
        if !valid {
          DispatchOriginFallback(task.chunk);
          tasks := tasks[i := task.(phase := Settling)];
          return;
        }
        tasks := tasks[i := task.(phase := Storing(task.phase.data))];
      }
    }

    /** The rest of `verifyAndStoreChunk` when the store has the bytes. */
    method PutDone(i: nat)
      modifies this
      ensures State() == Stored(old(State()), i)
    {
      if i < |tasks| && tasks[i].phase.Storing? {
        var task := tasks[i];
        chunkStore := chunkStore[task.chunk := task.phase.data];
        localBitfield := localBitfield + {task.chunk};
        log := log + [HaveSent(task.chunk)];
        log := log + [Completed(task.chunk, task.fromP2P, |task.phase.data|)];
        assert log == old(log) + [HaveSent(task.chunk), Completed(task.chunk, task.fromP2P, |task.phase.data|)];
        tasks := tasks[i := task.(phase := Settling)];
        var complete := IsComplete();
        if complete {
          log := log + [DownloadComplete];
        }
      }
    }

    method AwaitFails(i: nat)
      modifies this
      ensures State() == Rejected(old(State()), i)
    {
      if i < |tasks| && !tasks[i].phase.Settling? {
        if tasks[i].fromP2P {
          tasks := tasks[..i] + tasks[i + 1..];
        } else {
          tasks := tasks[i := tasks[i].(phase := Settling)];
        }
      }
    }

    /** The end of `handlePiece`, or the `finally` of an origin fetch. */
    method Continue(i: nat, sends: Sends)
      modifies this
      ensures State() == Settled(old(State()), i, sends)
    {
      if i < |tasks| && tasks[i].phase.Settling? {
        var task := tasks[i];
        tasks := tasks[..i] + tasks[i + 1..];
        if !task.fromP2P {
          originInFlight := originInFlight - {task.chunk};
        }
        if isRunning {
          ScheduleNext(sends);
        }
      }
    }

    /** Any event: one method call refines one step of the model. */
    method Handle(input: Input, hash: Bytes -> Digest)
      modifies this
      ensures State() == Step(old(State()), input, hash)
    {
      hide Model.Start, Model.Stop, Model.UpdatePeerBitfield, Model.UpdatePeerHave, MarkShared, Model.SetPeerChoked,
        Model.RemovePeer, Model.HandleTimeout, Model.HandlePiece, Fetched, Verified, Stored, Rejected, Settled;
      match input.event
      case Started => Start(input.sends);
      case Stopped => Stop();
      case GotBitfield(p, bits) => UpdatePeerBitfield(p, bits, input.sends);
      case GotHave(p, c) => var _ := UpdatePeerHave(p, c, input.sends);
      case SharedHave(p, c) => BitfieldMarked(p, c);
      case GotChoke(p, choked) => SetPeerChoked(p, choked, input.sends);
      case LostPeer(p) => RemovePeer(p, input.sends);
      case TimedOut(c) => HandleTimeout(c, input.sends);
      case GotPiece(c, offset, total, data) => var _ := HandlePiece(c, offset, total, data);
      case FetchResolved(i, data) => OriginAnswers(i, data);
      case VerifyResolved(i) => HashComputed(i, hash);
      case PutResolved(i) => PutDone(i);
      case AwaitRejected(i) => AwaitFails(i);
      case Continued(i) => Continue(i, input.sends);
    }
  }
}
