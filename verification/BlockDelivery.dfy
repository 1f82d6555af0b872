/** The blocks of one chunk on their way into the scheduler, among everything else that happens. */
module BlockDelivery {
  import opened BlockTransfer
  import opened Bytes
  import opened OrderedMaps
  import opened SchedulerModel
  import opened SchedulerPass
  import opened SchedulerSafety
  import opened Slicing
  import Reassembling
  import SendQueues
  import Wire

  // ---------------------------------------------------------------- what leaves a request alone

  /** Neither the request for `c` nor its peer nor its blocks are concerned. */
  predicate Harmless(s: Scheduler, event: Event, c: nat) {
    match event
    case Stopped => false
    case LostPeer(p) => c in s.inFlight.vals && s.inFlight.vals[c].peer != p
    case TimedOut(d) => d != c
    case GotPiece(d, _, _, _) => d != c
    case _ => true
  }

  /** The request for `c` and what was collected for it are as they were. */
  ghost predicate Undisturbed(s: Scheduler, t: Scheduler, c: nat) {
    && t.manifest == s.manifest
    && c in t.inFlight.vals && c in s.inFlight.vals && t.inFlight.vals[c] == s.inFlight.vals[c]
    && (c in t.reassembly <==> c in s.reassembly)
    && (c in s.reassembly ==> t.reassembly[c] == s.reassembly[c])
  }

  lemma UndisturbedCompose(s: Scheduler, t: Scheduler, u: Scheduler, c: nat)
    requires Undisturbed(s, t, c) && Undisturbed(t, u, c)
    ensures Undisturbed(s, u, c)
  {
  }

  lemma SameUndisturbed(s: Scheduler, t: Scheduler, c: nat)
    requires c in s.inFlight.vals
    requires t.manifest == s.manifest && t.inFlight == s.inFlight && t.reassembly == s.reassembly
    ensures Undisturbed(s, t, c)
  {
  }

  lemma PassSpares(s: Scheduler, sends: Sends, c: nat)
    requires c in s.inFlight.vals
    ensures Undisturbed(s, ScheduleNext(s, sends), c)
  {
    hide Pass;
    PassGrows(s, sends);
  }

  lemma ReplaceSpares(s: Scheduler, d: nat, retries: nat, sends: Sends, c: nat)
    requires c in s.inFlight.vals && d != c
    ensures Undisturbed(s, ScheduleChunk(Abandon(s, d), d, retries, sends), c)
  {
    hide ScheduleChunk;
    ChunkKeepsRest(Abandon(s, d), d, retries, sends);
    ChunkOnlyAsks(Abandon(s, d), d, retries, sends);
  }

  lemma StillThere(s: Scheduler, t: Scheduler, c: nat)
    requires Undisturbed(s, t, c)
    ensures c in t.inFlight.vals
  {
  }

  lemma {:induction false} RequeueSpares(s: Scheduler, lost: OrderedMap<nat, Request>, p: PeerId, k: nat,
                                         sends: Sends, c: nat)
    requires k <= |lost.keys| && c in s.inFlight.vals && c in lost.vals && lost.vals[c].peer != p
    ensures Undisturbed(s, Requeue(s, lost, p, k, sends), c)
  {
    hide Undisturbed, ScheduleChunk, Abandon;
    if k == 0 {
      SameUndisturbed(s, s, c);
    } else {
      RequeueSpares(s, lost, p, k - 1, sends, c);
      var t, d := Requeue(s, lost, p, k - 1, sends), lost.keys[k - 1];
      StillThere(s, t, c);
      if lost.vals[d].peer == p {
        ReplaceSpares(t, d, lost.vals[d].retries + 1, sends, c);
        UndisturbedCompose(s, t, Requeue(s, lost, p, k, sends), c);
      }
    }
  }

  lemma AbandonSpares(s: Scheduler, d: nat, tasks: seq<Task>, c: nat)
    requires c in s.inFlight.vals && d != c
    ensures Undisturbed(s, Abandon(s, d), c) && Undisturbed(s, Abandon(s, d).(tasks := tasks), c)
  {
  }

  lemma CollectingSpares(s: Scheduler, d: nat, item: Reassembling.Reassembly, c: nat)
    requires c in s.inFlight.vals && d != c
    ensures Undisturbed(s, s.(reassembly := s.reassembly[d := item]), c)
  {
  }

  lemma PieceSpares(s: Scheduler, d: nat, offset: nat, total: nat, data: Bytes, c: nat)
    requires c in s.inFlight.vals && d != c
    ensures Undisturbed(s, HandlePiece(s, d, offset, total, data), c)
  {
    hide Reassembling.Complete, Reassembling.Overruns, Reassembling.Assembled, Received, PhaseFor, Abandon, Undisturbed;
    SameUndisturbed(s, s, c);
    CollectingSpares(s, d, Received(s, d, offset, total, data), c);
    AbandonSpares(s, d, HandlePiece(s, d, offset, total, data).tasks, c);
  }

  lemma WaitingSpares(s: Scheduler, i: nat, data: Bytes, c: nat)
    requires c in s.inFlight.vals
    ensures Undisturbed(s, Fetched(s, i, data), c) && Undisturbed(s, Rejected(s, i), c)
    ensures Undisturbed(s, Resumed(s, i), c)
  {
    hide PhaseFor;
  }

  lemma StoringSpares(s: Scheduler, i: nat, c: nat)
    requires c in s.inFlight.vals
    ensures Undisturbed(s, Stored(s, i), c)
  {
  }

  lemma BeforeSpares(s: Scheduler, input: Input, hash: Bytes -> Digest, c: nat)
    requires c in s.inFlight.vals && Harmless(s, input.event, c)
    ensures Undisturbed(s, Before(s, input, hash), c)
  {
    hide Undisturbed, ScheduleChunk, Requeue, HandlePiece, Fetched, Rejected, Resumed, Verified, Stored, Marked,
      MarkShared, Abandon;
    if ConcernsPeers(input.event) {
      PeersLeave(s, input, hash);
      SameUndisturbed(s, Before(s, input, hash), c);
    } else {
      match input.event
      case LostPeer(p) =>
        SameUndisturbed(s, Forget(s, p), c);
        RequeueSpares(Forget(s, p), s.inFlight, p, |s.inFlight.keys|, input.sends, c);
        UndisturbedCompose(s, Forget(s, p), Before(s, input, hash), c);
      case TimedOut(d) =>
        SameUndisturbed(s, s, c);
        if d in s.inFlight.vals {
          ReplaceSpares(s, d, s.inFlight.vals[d].retries + 1, input.sends, c);
        }
      case GotPiece(d, offset, total, data) => PieceSpares(s, d, offset, total, data, c);
      case FetchResolved(i, data) => WaitingSpares(s, i, data, c);
      case AwaitRejected(i) => WaitingSpares(s, i, [], c);
      case Continued(i) => WaitingSpares(s, i, [], c);
      case VerifyResolved(i) =>
        VerifyingLeaves(s, i, hash);
        SameUndisturbed(s, Verified(s, i, hash), c);
      case PutResolved(i) => StoringSpares(s, i, c);
    }
  }

  /** A harmless event, with the pass that it may cause, leaves the request and its blocks alone. */
  lemma HarmlessSpares(s: Scheduler, input: Input, hash: Bytes -> Digest, c: nat)
    requires c in s.inFlight.vals && Harmless(s, input.event, c)
    ensures Undisturbed(s, Step(s, input, hash), c)
  {
    hide Undisturbed, Before, Step, Schedules, ScheduleNext, Harmless;
    StepSplits(s, input, hash);
    BeforeSpares(s, input, hash, c);
    var b := Before(s, input, hash);
    StillThere(s, b, c);
    PassSpares(b, input.sends, c);
    UndisturbedCompose(s, b, ScheduleNext(b, input.sends), c);
  }

  // ---------------------------------------------------------------- blocks among other events

  /** A frame with a block of the chunk, or any other event. */
  datatype Arrival = Block(k: nat) | Other(input: Input)

  function Blocks(arrivals: seq<Arrival>): seq<nat> {
    if arrivals == [] then []
    else
      var front, last := arrivals[..|arrivals| - 1], arrivals[|arrivals| - 1];
      if last.Block? then Blocks(front) + [last.k] else Blocks(front)
  }

  function ReceiveBlock(s: Scheduler, id: Bytes, c: nat, chunk: Bytes, size: nat, k: nat): Scheduler
    requires size > 0
  {
    if k >= |Slices(chunk, size)| then s
    else
      var frame := Wire.Encode(BlockMessage(id, c, chunk, size, k));
      if frame.Success? then ReceiveFrame(s, id, frame.value) else s
  }

  function Arrive(s: Scheduler, id: Bytes, c: nat, chunk: Bytes, size: nat, arrivals: seq<Arrival>,
                  hash: Bytes -> Digest): Scheduler
    requires size > 0
  {
    if arrivals == [] then s
    else
      var t := Arrive(s, id, c, chunk, size, arrivals[..|arrivals| - 1], hash);
      match arrivals[|arrivals| - 1]
      case Block(k) => ReceiveBlock(t, id, c, chunk, size, k)
      case Other(input) => Step(t, input, hash)
  }

  /** Whatever happens between the blocks is harmless where it happens. */
  ghost predicate Gentle(s: Scheduler, id: Bytes, c: nat, chunk: Bytes, size: nat, arrivals: seq<Arrival>,
                         hash: Bytes -> Digest)
    requires size > 0
  {
    arrivals == [] ||
    var front, last := arrivals[..|arrivals| - 1], arrivals[|arrivals| - 1];
    && Gentle(s, id, c, chunk, size, front, hash)
    && (last.Other? ==> Harmless(Arrive(s, id, c, chunk, size, front, hash), last.input.event, c))
  }

  /** A request that was just made, or one whose blocks `ks` are collected. */
  ghost predicate Collecting(s: Scheduler, t: Scheduler, c: nat, chunk: Bytes, size: nat, ks: seq<nat>)
    requires size > 0 && InRange(chunk, size, ks)
  {
    && t.manifest == s.manifest
    && c in s.inFlight.vals && c in t.inFlight.vals && t.inFlight.vals[c] == s.inFlight.vals[c]
    && (c in t.reassembly <==> ks != [])
    && (ks != [] ==> t.reassembly[c] == Feed(chunk, size, ks))
  }

  lemma OneCollected(s: Scheduler, t: Scheduler, id: Bytes, c: nat, chunk: Bytes, size: nat, ks: seq<nat>, k: nat)
    requires size > 0 && InRange(chunk, size, ks) && k < |Slices(chunk, size)| && chunk != []
    requires |id| <= Wire.MAX_ID_LENGTH && c < Wire.U32_LIMIT && |chunk| < Wire.U32_LIMIT
    requires Collecting(s, t, c, chunk, size, ks)
    ensures InRange(chunk, size, ks + [k])
    ensures var u := ReceiveBlock(t, id, c, chunk, size, k);
      if HasAll(ks + [k], |Slices(chunk, size)|)
      then u == Abandon(t, c).(tasks := t.tasks + [Task(c, true, PhaseFor(t.manifest, c, chunk))])
      else Collecting(s, u, c, chunk, size, ks + [k])
  {
    hide Wire.Encode, ReceiveFrame, BlockMessage, HasAll, Slices, Reassembling.Complete, Reassembling.Overruns,
      Reassembling.Assembled, Reassembling.AddBlock;
    assert (ks + [k])[..|ks|] == ks;
    FrameHandled(t, id, c, chunk, size, k);
    TransferRoundTrip(chunk, size, ks + [k]);
    assert Received(t, c, k * size, |chunk|, Slices(chunk, size)[k]) == Feed(chunk, size, ks + [k]);
    if !HasAll(ks + [k], |Slices(chunk, size)|) {
      PieceCollected(t, c, k * size, |chunk|, Slices(chunk, size)[k]);
    }
  }

  lemma UndisturbedCollecting(s: Scheduler, t: Scheduler, u: Scheduler, c: nat, chunk: Bytes, size: nat, ks: seq<nat>)
    requires size > 0 && InRange(chunk, size, ks) && Collecting(s, t, c, chunk, size, ks) && Undisturbed(t, u, c)
    ensures Collecting(s, u, c, chunk, size, ks)
  {
  }

  lemma BlocksMore(arrivals: seq<Arrival>)
    requires arrivals != []
    ensures var front, last := arrivals[..|arrivals| - 1], arrivals[|arrivals| - 1];
      Blocks(arrivals) == if last.Block? then Blocks(front) + [last.k] else Blocks(front)
  {
  }

  lemma PrefixHasNotAll(ks: seq<nat>, k: nat, n: nat)
    requires !HasAll(ks + [k], n)
    ensures !HasAll(ks, n)
  {
    assert forall x :: x in ks ==> x in ks + [k];
  }

  lemma NoBlocks()
    ensures Blocks([]) == []
  {
  }

  lemma {:induction false} BlocksCollect(s: Scheduler, id: Bytes, c: nat, chunk: Bytes, size: nat,
                                         arrivals: seq<Arrival>, hash: Bytes -> Digest)
    requires size > 0 && InRange(chunk, size, Blocks(arrivals)) && chunk != []
    requires |id| <= Wire.MAX_ID_LENGTH && c < Wire.U32_LIMIT && |chunk| < Wire.U32_LIMIT
    requires c in s.inFlight.vals && c !in s.reassembly
    requires !HasAll(Blocks(arrivals), |Slices(chunk, size)|) && Gentle(s, id, c, chunk, size, arrivals, hash)
    ensures Collecting(s, Arrive(s, id, c, chunk, size, arrivals, hash), c, chunk, size, Blocks(arrivals))
  {
    hide Step, ReceiveBlock, HasAll, Slices, Feed, Harmless, Blocks;
    if arrivals == [] {
      assert Blocks(arrivals) == [] by {
        NoBlocks();
      }
    } else {
      var front, last := arrivals[..|arrivals| - 1], arrivals[|arrivals| - 1];
      var t := Arrive(s, id, c, chunk, size, front, hash);
      BlocksMore(arrivals);
      if last.Block? {
        assert InRange(chunk, size, Blocks(front)) && last.k < |Slices(chunk, size)| by {
          assert Blocks(arrivals)[|Blocks(front)|] == last.k;
          assert forall i :: 0 <= i < |Blocks(front)| ==> Blocks(arrivals)[i] == Blocks(front)[i];
        }
        PrefixHasNotAll(Blocks(front), last.k, |Slices(chunk, size)|);
        BlocksCollect(s, id, c, chunk, size, front, hash);
        OneCollected(s, t, id, c, chunk, size, Blocks(front), last.k);
      } else {
        BlocksCollect(s, id, c, chunk, size, front, hash);
        HarmlessSpares(t, last.input, hash, c);
        UndisturbedCollecting(s, t, Step(t, last.input, hash), c, chunk, size, Blocks(front));
      }
    }
  }

  /**
   * From the moment a chunk is asked for, when the last missing block arrives over the wire, in
   * whatever order and with whatever repeats and harmless events between, the scheduler drops the
   * request and verifies exactly the seeder's chunk.
   */
  lemma BlocksDeliverChunk(s: Scheduler, id: Bytes, c: nat, chunk: Bytes, size: nat, arrivals: seq<Arrival>, last: nat,
                           hash: Bytes -> Digest)
    requires size > 0 && InRange(chunk, size, Blocks(arrivals)) && last < |Slices(chunk, size)| && chunk != []
    requires |id| <= Wire.MAX_ID_LENGTH && c < Wire.U32_LIMIT && |chunk| < Wire.U32_LIMIT
    requires c in s.inFlight.vals && c !in s.reassembly
    requires !HasAll(Blocks(arrivals), |Slices(chunk, size)|)
    requires HasAll(Blocks(arrivals) + [last], |Slices(chunk, size)|)
    requires Gentle(s, id, c, chunk, size, arrivals, hash)
    ensures var t := Arrive(s, id, c, chunk, size, arrivals, hash);
      && t.manifest == s.manifest
      && ReceiveBlock(t, id, c, chunk, size, last) ==
           Abandon(t, c).(tasks := t.tasks + [Task(c, true, PhaseFor(s.manifest, c, chunk))])
  {
    hide ReceiveBlock, HasAll, Slices, Arrive, Gentle, Blocks, Feed;
    BlocksCollect(s, id, c, chunk, size, arrivals, hash);
    OneCollected(s, Arrive(s, id, c, chunk, size, arrivals, hash), id, c, chunk, size, Blocks(arrivals), last);
  }

  // ---------------------------------------------------------------- blocks from a wire

  /** The same arrivals, with the frames as they stand on a wire. */
  function Carry(s: Scheduler, id: Bytes, frames: seq<Bytes>, arrivals: seq<Arrival>,
                 hash: Bytes -> Digest): Scheduler {
    if arrivals == [] then s
    else
      var t := Carry(s, id, frames, arrivals[..|arrivals| - 1], hash);
      match arrivals[|arrivals| - 1]
      case Block(k) => if k < |frames| then ReceiveFrame(t, id, frames[k]) else t
      case Other(input) => Step(t, input, hash)
  }

  lemma OneCarried(s: Scheduler, id: Bytes, c: nat, chunk: Bytes, size: nat, frames: seq<Bytes>, k: nat)
    requires size > 0 && |id| <= Wire.MAX_ID_LENGTH && frames == Frames(id, c, chunk, size, |Slices(chunk, size)|)
    ensures ReceiveBlock(s, id, c, chunk, size, k) == if k < |frames| then ReceiveFrame(s, id, frames[k]) else s
  {
    hide Wire.Encode, ReceiveFrame, Slices, Frames, BlockFrame;
    if k < |frames| {
      assert frames[k] == BlockFrame(id, c, chunk, size, k);
    }
  }

  lemma {:induction false} CarryArrives(s: Scheduler, id: Bytes, c: nat, chunk: Bytes, size: nat, frames: seq<Bytes>,
                                        arrivals: seq<Arrival>, hash: Bytes -> Digest)
    requires size > 0 && |id| <= Wire.MAX_ID_LENGTH && frames == Frames(id, c, chunk, size, |Slices(chunk, size)|)
    ensures Carry(s, id, frames, arrivals, hash) == Arrive(s, id, c, chunk, size, arrivals, hash)
  {
    hide Step, ReceiveFrame, ReceiveBlock, Slices, Frames;
    if arrivals == [] {
    } else {
      var front, last := arrivals[..|arrivals| - 1], arrivals[|arrivals| - 1];
      CarryArrives(s, id, c, chunk, size, frames, front, hash);
      if last.Block? {
        OneCarried(Arrive(s, id, c, chunk, size, front, hash), id, c, chunk, size, frames, last.k);
      }
    }
  }

  /**
   * The frames that reach the downloader are those that the seeder's connection put on its wire
   * for the REQUEST, behind all that it held before.
   */
  lemma WireCarries(q: SendQueues.Connection, throws: nat -> bool, es: seq<SendQueues.Event>, s: Scheduler, id: Bytes,
                    c: nat, chunk: Bytes, size: nat, arrivals: seq<Arrival>, hash: Bytes -> Digest)
    requires size > 0 && |id| <= Wire.MAX_ID_LENGTH && SendQueues.Kept(q) && SendQueues.Sendable(q)
    requires var v := SendQueues.Run(SendQueues.SendAll(q, Answer(id, c, chunk, size), throws), es);
      !v.isClosed && v.sendQueue == [] && SendQueues.Lossless(v)
    ensures var v := SendQueues.Run(SendQueues.SendAll(q, Answer(id, c, chunk, size), throws), es);
      var from, n := |q.held|, |Slices(chunk, size)|;
      && from + n <= |v.wire|
      && Carry(s, id, v.wire[from..from + n], arrivals, hash) == Arrive(s, id, c, chunk, size, arrivals, hash)
  {
    hide SendQueues.Kept, SendQueues.Lossless, SendQueues.Run, SendQueues.SendAll, Carry, Arrive, Slices, Frames;
    var frames := Answer(id, c, chunk, size);
    var v := SendQueues.Run(SendQueues.SendAll(q, frames, throws), es);
    SendQueues.BurstSent(q, frames, throws, es);
    assert v.wire[|q.held|..|q.held| + |frames|] == frames;
    CarryArrives(s, id, c, chunk, size, frames, arrivals, hash);
  }
}
