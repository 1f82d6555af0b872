/** When a download can come to rest unfinished, and when it cannot. */
module SchedulerLiveness {
  import opened Bitfields
  import opened Bytes
  import opened SchedulerModel
  import opened SchedulerPass
  import opened SchedulerSafety
  import Reassembling

  /** Unfinished, with no timer and no promise that would wake the scheduler up. */
  ghost predicate Stalled(s: Scheduler) {
    s.running && !Complete(s) && |s.inFlight.vals| == 0 && s.tasks == []
  }

  /** Some block of the chunk reaches past the length declared with its first block. */
  predicate OverrunningPiece(s: Scheduler, c: nat, offset: nat, total: nat, data: Bytes) {
    var item := Received(s, c, offset, total, data);
    Reassembling.Complete(item) && Reassembling.Overruns(item)
  }

  /**
   * The last thing the scheduler waits for is about to fail without a call of `scheduleNext`:
   * the last request in flight ends in a block past the end, or the hash or the store rejects
   * for the last chunk that came from a peer.
   */
  ghost predicate LastHopeFails(s: Scheduler, event: Event) {
    match event
    case GotPiece(c, offset, total, data) =>
      s.inFlight.vals.Keys == {c} && s.tasks == [] && OverrunningPiece(s, c, offset, total, data)
    case AwaitRejected(i) =>
      |s.inFlight.vals| == 0 && |s.tasks| == 1 && i == 0 && s.tasks[0].fromP2P && !s.tasks[0].phase.Settling?
    case _ => false
  }

  lemma ScheduleNextRunning(s: Scheduler, sends: Sends)
    ensures ScheduleNext(s, sends).running == s.running
  {
    PassGrows(s, sends);
  }

  lemma BusyAfterPass(s: Scheduler, sends: Sends)
    requires Neat(s)
    ensures !Stalled(ScheduleNext(s, sends))
  {
    hide ScheduleNext;
    var t := ScheduleNext(s, sends);
    ScheduleNextTidy(s, sends);
    ScheduleNextQuiet(s, sends);
    ScheduleNextRunning(s, sends);
    if s.running && !Complete(s) {
      PassKeepsBusy(s, sends);
      if c :| c in t.atOrigin {
        assert HasFetch(t, c);
      }
    }
  }

  lemma AbandonLeaves(s: Scheduler, c: nat)
    ensures Abandon(s, c) == s.(inFlight := s.inFlight.Delete(c), reassembly := Abandon(s, c).reassembly)
  {
  }

  lemma OnlyOne(cs: set<nat>, c: nat)
    requires c in cs
    ensures |cs - {c}| == 0 <==> cs == {c}
  {
    assert cs == (cs - {c}) + {c};
  }

  lemma AbandonStalls(s: Scheduler, c: nat)
    requires c in s.inFlight.vals
    ensures Stalled(Abandon(s, c)) <==> s.running && !Complete(s) && s.inFlight.vals.Keys == {c} && s.tasks == []
  {
    hide Full;
    AbandonLeaves(s, c);
    OnlyOne(s.inFlight.vals.Keys, c);
    assert Abandon(s, c).inFlight.vals.Keys == s.inFlight.vals.Keys - {c};
  }

  lemma PieceStalls(s: Scheduler, c: nat, offset: nat, total: nat, data: Bytes)
    requires Neat(s) && !Stalled(s)
    ensures Stalled(HandlePiece(s, c, offset, total, data)) <==>
      s.running && !Complete(s) && LastHopeFails(s, GotPiece(c, offset, total, data))
  {
    hide Reassembling.Complete, Reassembling.Overruns, Reassembling.Assembled, Received, Neat, Abandon, Full, PhaseFor;
    if c !in s.inFlight.vals {
      assert c !in s.inFlight.vals.Keys;
    } else if OverrunningPiece(s, c, offset, total, data) {
      AbandonStalls(s, c);
    } else {
      AbandonLeaves(s, c);
    }
  }

  lemma RejectStalls(s: Scheduler, i: nat)
    requires Neat(s) && !Stalled(s)
    ensures Stalled(Rejected(s, i)) <==> s.running && !Complete(s) && LastHopeFails(s, AwaitRejected(i))
  {
  }

  lemma PeersStay(s: Scheduler, input: Input, hash: Bytes -> Digest)
    requires !Stalled(s) && ConcernsPeers(input.event) && !input.event.Started?
    ensures !Stalled(Before(s, input, hash))
  {
    hide Before;
    PeersLeave(s, input, hash);
  }

  lemma WaitsOn(s: Scheduler, i: nat, hash: Bytes -> Digest)
    requires !Stalled(s)
    ensures !Stalled(Verified(s, i, hash)) && !Stalled(Stored(s, i))
  {
  }

  lemma OthersBusy(s: Scheduler, input: Input, hash: Bytes -> Digest)
    requires !Stalled(s) && !Schedules(s, input.event)
    requires input.event.Started? || input.event.Stopped? || input.event.TimedOut? || input.event.FetchResolved?
      || input.event.Continued?
    ensures !Stalled(Before(s, input, hash))
  {
  }

  lemma QuietlyBusy(s: Scheduler, input: Input, hash: Bytes -> Digest)
    requires !Stalled(s) && !Schedules(s, input.event) && !input.event.GotPiece? && !input.event.AwaitRejected?
    ensures !Stalled(Before(s, input, hash))
  {
    hide Requeue, ScheduleChunk, Verified, Stored, Marked, MarkShared, HandlePiece;
    if input.event.LostPeer? {
      var p := input.event.peer;
      RequeueKeepsRest(Forget(s, p), s.inFlight, p, |s.inFlight.keys|, input.sends);
    } else if ConcernsPeers(input.event) && !input.event.Started? {
      PeersStay(s, input, hash);
    } else if input.event.VerifyResolved? || input.event.PutResolved? {
      WaitsOn(s, input.event.task, hash);
    } else {
      OthersBusy(s, input, hash);
    }
  }

  /**
   * No stall, exactly: one event brings an unfinished, running download to rest if and only if
   * it makes the last thing waited for fail in one of the two ways of `LastHopeFails`. All
   * peers being choked or gone and all sends failing is never enough.
   */
  lemma StallsExactly(s: Scheduler, input: Input, hash: Bytes -> Digest)
    requires Neat(s) && !Stalled(s)
    ensures Stalled(Step(s, input, hash)) <==> s.running && !Complete(s) && LastHopeFails(s, input.event)
  {
    hide Stalled, Before, Neat;
    StepSplits(s, input, hash);
    if Schedules(s, input.event) {
      BeforeTidy(s, input, hash);
      BusyAfterPass(Before(s, input, hash), input.sends);
    } else {
      match input.event
      case GotPiece(c, offset, total, data) => PieceStalls(s, c, offset, total, data);
      case AwaitRejected(i) => RejectStalls(s, i);
      case _ => QuietlyBusy(s, input, hash);
    }
  }

  /** What a peer may do to wake up a scheduler at rest. */
  predicate Revives(s: Scheduler, event: Event) {
    match event
    case GotBitfield(_, _) => true
    case GotHave(p, c) => c < if p in s.peers.vals then s.peers.vals[p].total else s.manifest.total
    case GotChoke(_, choked) => !choked
    case LostPeer(_) => true
    case _ => false
  }

  lemma RevivalSchedules(s: Scheduler, event: Event)
    requires Stalled(s)
    ensures Schedules(s, event) <==> Revives(s, event)
  {
  }

  lemma StaysStalled(s: Scheduler, input: Input, hash: Bytes -> Digest)
    requires Stalled(s) && !Revives(s, input.event) && !input.event.Stopped?
    ensures Stalled(Before(s, input, hash))
  {
    hide Requeue, ScheduleChunk, Marked, MarkShared, Full;
    if ConcernsPeers(input.event) && !input.event.Started? {
      hide Before;
      PeersLeave(s, input, hash);
    } else {
      assert s.inFlight.vals == map[];
    }
  }

  lemma StoppedNotStalled(s: Scheduler, input: Input, hash: Bytes -> Digest)
    requires input.event.Stopped?
    ensures !Stalled(Before(s, input, hash))
  {
  }

  /**
   * A download at rest stays there, whatever timers and promises do, until a peer announces
   * something, is unchoked or leaves, or the download is stopped; and each of these ends it.
   */
  lemma StallEndsExactly(s: Scheduler, input: Input, hash: Bytes -> Digest)
    requires Neat(s) && Stalled(s)
    ensures Stalled(Step(s, input, hash)) <==> !Revives(s, input.event) && !input.event.Stopped?
  {
    hide Stalled, Before, Neat, Step, Schedules, Revives;
    RevivalSchedules(s, input.event);
    StepSplits(s, input, hash);
    if Revives(s, input.event) {
      BeforeTidy(s, input, hash);
      BusyAfterPass(Before(s, input, hash), input.sends);
    } else if input.event.Stopped? {
      StoppedNotStalled(s, input, hash);
    } else {
      StaysStalled(s, input, hash);
    }
  }

  /** No input of the run meets the state before it in a way that makes the last hope fail. */
  ghost predicate HopeKept(s: Scheduler, inputs: seq<Input>, hash: Bytes -> Digest) {
    forall k :: 0 <= k < |inputs| ==> !LastHopeFails(Run(s, inputs[..k], hash), inputs[k].event)
  }

  lemma {:induction false} RunNeverStalls(s: Scheduler, inputs: seq<Input>, hash: Bytes -> Digest)
    requires Safe(s, hash) && !Stalled(s) && HopeKept(s, inputs, hash)
    ensures !Stalled(Run(s, inputs, hash))
  {
    hide Stalled, Step, LastHopeFails, Neat, Sound;
    if inputs == [] {
    } else {
      var n := |inputs| - 1;
      forall k | 0 <= k < n ensures !LastHopeFails(Run(s, inputs[..n][..k], hash), inputs[..n][k].event) {
        assert inputs[..n][..k] == inputs[..k];
      }
      RunNeverStalls(s, inputs[..n], hash);
      RunSafe(s, inputs[..n], hash);
      StallsExactly(Run(s, inputs[..n], hash), inputs[n], hash);
    }
  }
}
