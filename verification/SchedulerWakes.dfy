/** Which events make the scheduler ask for chunks, and what each event reports. */
module SchedulerWakes {
  import opened Bitfields
  import opened Bytes
  import opened OrderedMaps
  import opened SchedulerModel
  import opened SchedulerPass
  import opened SchedulerPeers
  import opened SchedulerSafety
  import Reassembling

  /**
   * The start; while running, what a peer announces, an UNCHOKE, a departure and the end of a
   * verification or fetch; and the timeout of a request in flight.
   */
  predicate Wakes(s: Scheduler, event: Event) {
    match event
    case Started => !s.running
    case GotBitfield(_, _) => s.running
    case GotHave(p, c) => s.running && c < LengthIn(s, p)
    case GotChoke(_, choked) => s.running && !choked
    case LostPeer(_) => s.running
    case TimedOut(c) => c in s.inFlight.vals
    case Continued(i) => s.running && i < |s.tasks| && s.tasks[i].phase.Settling?
    case _ => false
  }

  lemma WakesSchedules(s: Scheduler, event: Event)
    ensures Schedules(s, event) <==> Wakes(s, event)
  {
  }

  // ---------------------------------------------------------------- what each handler leaves

  lemma FetchedLeaves(s: Scheduler, i: nat, data: Bytes)
    ensures Fetched(s, i, data) == s.(tasks := Fetched(s, i, data).tasks)
  {
    hide PhaseFor;
  }

  lemma RejectedLeaves(s: Scheduler, i: nat)
    ensures Rejected(s, i) == s.(tasks := Rejected(s, i).tasks)
  {
  }

  lemma ResumedLeaves(s: Scheduler, i: nat)
    ensures var t := Resumed(s, i);
      t == s.(tasks := t.tasks, atOrigin := t.atOrigin) && t.atOrigin <= s.atOrigin
  {
  }

  lemma StoredLeaves(s: Scheduler, i: nat)
    ensures var t := Stored(s, i);
      t == s.(tasks := t.tasks, have := t.have, store := t.store, log := t.log)
  {
    hide Full;
  }

  lemma PieceLeaves(s: Scheduler, c: nat, offset: nat, total: nat, data: Bytes)
    ensures var t := HandlePiece(s, c, offset, total, data);
      && t == s.(inFlight := t.inFlight, reassembly := t.reassembly, tasks := t.tasks)
      && forall d: nat :: d in t.inFlight.vals ==> d in s.inFlight.vals && t.inFlight.vals[d] == s.inFlight.vals[d]
  {
    hide Reassembling.Complete, Reassembling.Overruns, Reassembling.Assembled, Received, PhaseFor;
  }

  lemma ToldLeaves(s: Scheduler, input: Input, hash: Bytes -> Digest)
    requires ConcernsPeers(input.event)
    ensures var t := Before(s, input, hash);
      t == s.(running := s.running || input.event.Started?, peers := t.peers, choked := t.choked)
  {
    hide Marked, MarkShared;
    match input.event
    case GotHave(p, c) => MarkedLeaves(s, p, c);
    case SharedHave(p, c) => SharedLeaves(s, p, c);
    case _ =>
  }

  /** Only the start and `stop` change whether it runs, and but for a completed write nothing is reported. */
  lemma BeforeLeaves(s: Scheduler, input: Input, hash: Bytes -> Digest)
    ensures var t := Before(s, input, hash);
      && (t.running <==> !input.event.Stopped? && (s.running || input.event.Started?))
      && t.manifest == s.manifest && (!input.event.PutResolved? ==> t.log == s.log)
  {
    hide ScheduleChunk, Requeue, HandlePiece, Fetched, Rejected, Resumed, Stored, Verified, Marked, MarkShared;
    if ConcernsPeers(input.event) {
      ToldLeaves(s, input, hash);
    } else {
      match input.event
      case GotPiece(c, offset, total, data) => PieceLeaves(s, c, offset, total, data);
      case FetchResolved(i, data) => FetchedLeaves(s, i, data);
      case VerifyResolved(i) => VerifyingLeaves(s, i, hash);
      case PutResolved(i) => StoredLeaves(s, i);
      case AwaitRejected(i) => RejectedLeaves(s, i);
      case Continued(i) => ResumedLeaves(s, i);
      case LostPeer(p) => RequeueKeepsRest(Forget(s, p), s.inFlight, p, |s.inFlight.keys|, input.sends);
      case TimedOut(c) =>
        if c in s.inFlight.vals {
          ChunkKeepsRest(Abandon(s, c), c, s.inFlight.vals[c].retries + 1, input.sends);
        }
      case Stopped =>
    }
  }

  // ---------------------------------------------------------------- asking

  /** Eight requests are outstanding, or every idle chunk has holders, all of which carry two requests. */
  ghost predicate NothingToAsk(s: Scheduler) {
    || Outstanding(s) >= 8
    || forall c: nat :: Idle(s, c) ==> (exists p :: Offers(s, p, c)) && forall p :: Offers(s, p, c) ==> Load(s, p) >= 2
  }

  lemma WakesTouchNoData(s: Scheduler, input: Input, hash: Bytes -> Digest)
    requires Wakes(s, input.event)
    ensures Quiet(s, Before(s, input, hash))
  {
    hide Before, Quiet;
    BeforeQuiet(s, input, hash);
  }

  /** While a chunk is missing, after each event that wakes the scheduler there is nothing left to ask for. */
  lemma WakesConserveWork(s: Scheduler, input: Input, hash: Bytes -> Digest)
    requires Wakes(s, input.event) && (s.running || input.event.Started?) && !Complete(s)
    ensures NothingToAsk(Step(s, input, hash)) && !Complete(Step(s, input, hash))
  {
    hide Before, Step, Schedules, ScheduleNext, Idle, Load, Offers, Outstanding;
    var b := Before(s, input, hash);
    WakesSchedules(s, input.event);
    StepSplits(s, input, hash);
    WakesTouchNoData(s, input, hash);
    BeforeLeaves(s, input, hash);
    WorkConservation(b, input.sends);
    ScheduleNextQuiet(b, input.sends);
  }

  /** The chunk of a task whose bytes do not have the manifest's hash. */
  predicate Refuses(s: Scheduler, event: Event, hash: Bytes -> Digest, c: nat) {
    event.VerifyResolved? && event.task < |s.tasks| && s.tasks[event.task].chunk == c
    && s.tasks[event.task].phase.Verifying? && !Authentic(s.manifest, hash, c, s.tasks[event.task].phase.data)
  }

  /** No request is new or changed, and no fetch is new. */
  ghost predicate AsksNothing(s: Scheduler, t: Scheduler) {
    && (forall c: nat :: c in t.inFlight.vals ==> c in s.inFlight.vals && t.inFlight.vals[c] == s.inFlight.vals[c])
    && t.atOrigin <= s.atOrigin
  }

  lemma HashAsksOrigin(s: Scheduler, i: nat, hash: Bytes -> Digest)
    ensures Verified(s, i, hash).inFlight == s.inFlight
    ensures forall c: nat :: c in Verified(s, i, hash).atOrigin <==>
      c in s.atOrigin || (Refuses(s, VerifyResolved(i), hash, c) && c !in s.have)
  {
    hide Move;
    if Waits(s, i) && s.tasks[i].phase.Verifying? {
      MoveLeaves(s, i, Storing(s.tasks[i].phase.data));
      MoveLeaves(DispatchOrigin(s, s.tasks[i].chunk), i, Settling);
    }
  }

  /** A stopped download has no requests, whatever happens to it. */
  ghost predicate AsksWhileRunning(s: Scheduler) {
    !s.running ==> s.inFlight.vals == map[]
  }

  lemma FirstKey(m: OrderedMap<nat, Request>)
    ensures m.keys == [] || m.vals != map[]
  {
    if m.keys != [] {
      assert m.keys[0] in m.vals.Keys;
    }
  }

  lemma NobodyLost(s: Scheduler, p: PeerId, sends: Sends)
    requires s.inFlight.vals == map[]
    ensures Requeue(Forget(s, p), s.inFlight, p, |s.inFlight.keys|, sends) == Forget(s, p)
  {
    FirstKey(s.inFlight);
  }

  lemma PeersAskNothing(s: Scheduler, input: Input, hash: Bytes -> Digest)
    requires ConcernsPeers(input.event) || input.event.Stopped? || input.event.TimedOut? || input.event.LostPeer?
    requires !Wakes(s, input.event) && AsksWhileRunning(s)
    ensures AsksNothing(s, Before(s, input, hash))
  {
    hide Requeue, ScheduleChunk, Marked, MarkShared;
    if ConcernsPeers(input.event) {
      ToldLeaves(s, input, hash);
    } else if input.event.LostPeer? {
      NobodyLost(s, input.event.peer, input.sends);
    }
  }

  /** Any other event asks for nothing, but for the origin where a chunk that is missing is refused. */
  lemma AsksOnlyAwake(s: Scheduler, input: Input, hash: Bytes -> Digest)
    requires !Wakes(s, input.event) && AsksWhileRunning(s)
    ensures var t := Step(s, input, hash);
      && (!input.event.VerifyResolved? ==> AsksNothing(s, t))
      && (input.event.VerifyResolved? ==>
            t.inFlight == s.inFlight
            && forall c: nat :: c in t.atOrigin <==>
                 c in s.atOrigin || (Refuses(s, input.event, hash, c) && c !in s.have))
  {
    hide Step, Wakes, Schedules, Refuses, HandlePiece, Fetched, Rejected, Resumed, Stored, Verified, Stop,
      Requeue, ScheduleChunk, Marked, MarkShared;
    WakesSchedules(s, input.event);
    StepSplits(s, input, hash);
    match input.event
    case GotPiece(c, offset, total, data) => PieceLeaves(s, c, offset, total, data);
    case FetchResolved(i, data) => FetchedLeaves(s, i, data);
    case VerifyResolved(i) => HashAsksOrigin(s, i, hash);
    case PutResolved(i) => StoredLeaves(s, i);
    case AwaitRejected(i) => RejectedLeaves(s, i);
    case Continued(i) => ResumedLeaves(s, i);
    case _ => PeersAskNothing(s, input, hash);
  }

  lemma StopEmpties(s: Scheduler)
    ensures Stop(s).inFlight.vals == map[] && !Stop(s).running
  {
  }

  lemma NothingMore(s: Scheduler, t: Scheduler)
    requires s.inFlight.vals == map[] && AsksNothing(s, t)
    ensures t.inFlight.vals == map[]
  {
  }

  lemma PassKeepsRunning(s: Scheduler, sends: Sends)
    ensures ScheduleNext(s, sends).running == s.running
  {
    hide Pass;
    PassGrows(s, sends);
  }

  lemma RunsUntilStopped(s: Scheduler, input: Input, hash: Bytes -> Digest)
    ensures Step(s, input, hash).running <==> !input.event.Stopped? && (s.running || input.event.Started?)
  {
    hide Step, Before, Schedules, ScheduleNext;
    StepSplits(s, input, hash);
    BeforeLeaves(s, input, hash);
    PassKeepsRunning(Before(s, input, hash), input.sends);
  }

  lemma StopSteps(s: Scheduler, input: Input, hash: Bytes -> Digest)
    requires input.event.Stopped?
    ensures Step(s, input, hash) == Stop(s)
  {
  }

  lemma NotRunning(s: Scheduler, input: Input, hash: Bytes -> Digest)
    requires AsksWhileRunning(s) && !Step(s, input, hash).running
    ensures Step(s, input, hash).inFlight.vals == map[]
  {
    hide Step, AsksNothing;
    RunsUntilStopped(s, input, hash);
    if input.event.Stopped? {
      StopSteps(s, input, hash);
      StopEmpties(s);
    } else {
      AsksOnlyAwake(s, input, hash);
      if !input.event.VerifyResolved? {
        NothingMore(s, Step(s, input, hash));
      }
    }
  }

  /** In every state of every interleaving, a download that does not run has no requests. */
  lemma {:induction false} StoppedAsksNobody(s: Scheduler, inputs: seq<Input>, hash: Bytes -> Digest)
    requires AsksWhileRunning(s)
    ensures AsksWhileRunning(Run(s, inputs, hash))
  {
    hide Step, Wakes, AsksNothing;
    if inputs == [] {
    } else {
      var front, last := inputs[..|inputs| - 1], inputs[|inputs| - 1];
      StoppedAsksNobody(s, front, hash);
      var t := Run(s, front, hash);
      RunsUntilStopped(t, last, hash);
      if !Step(t, last, hash).running {
        NotRunning(t, last, hash);
      }
    }
  }

  // ---------------------------------------------------------------- what is reported

  lemma StoredReports(s: Scheduler, i: nat)
    requires i < |s.tasks| && s.tasks[i].phase.Storing?
    ensures var c, data := s.tasks[i].chunk, s.tasks[i].phase.data;
      Stored(s, i).log ==
        s.log +
          ([HaveSent(c), Completed(c, s.tasks[i].fromP2P, |data|)]
           + if forall d :: 0 <= d < s.manifest.total ==> d in s.have + {c} then [DownloadComplete] else [])
  {
  }

  lemma PassReports(s: Scheduler, sends: Sends)
    ensures ScheduleNext(s, sends).log ==
      s.log + if forall d :: 0 <= d < s.manifest.total ==> d in s.have then [DownloadComplete] else []
  {
    hide Pass;
    PassGrows(s, sends);
  }

  lemma NotStored(s: Scheduler, i: nat)
    requires !(i < |s.tasks| && s.tasks[i].phase.Storing?)
    ensures Stored(s, i) == s
  {
  }

  lemma PutReports(s: Scheduler, input: Input, hash: Bytes -> Digest)
    requires input.event.PutResolved?
    ensures Step(s, input, hash) == Stored(s, input.event.task) && !Wakes(s, input.event)
    ensures var i := input.event.task;
      if i < |s.tasks| && s.tasks[i].phase.Storing? then
        Stored(s, i).log == s.log +
          ([HaveSent(s.tasks[i].chunk), Completed(s.tasks[i].chunk, s.tasks[i].fromP2P, |s.tasks[i].phase.data|)]
           + if forall d :: 0 <= d < s.manifest.total ==> d in s.have + {s.tasks[i].chunk}
             then [DownloadComplete] else [])
      else Stored(s, i) == s
  {
    hide Stored;
    var i := input.event.task;
    if i < |s.tasks| && s.tasks[i].phase.Storing? {
      StoredReports(s, i);
    } else {
      NotStored(s, i);
    }
  }

  /**
   * What one event reports: a completed write the HAVE, the chunk with its source and length, and
   * the end of the download if nothing is missing then; an event that wakes the scheduler of a
   * complete download its end once more; and any other event nothing.
   */
  lemma ReportsExactly(s: Scheduler, input: Input, hash: Bytes -> Digest)
    ensures var t, i := Step(s, input, hash), if input.event.PutResolved? then input.event.task else 0;
      t.log == s.log +
        if input.event.PutResolved? && i < |s.tasks| && s.tasks[i].phase.Storing? then
          [HaveSent(s.tasks[i].chunk), Completed(s.tasks[i].chunk, s.tasks[i].fromP2P, |s.tasks[i].phase.data|)]
          + if forall d :: 0 <= d < s.manifest.total ==> d in s.have + {s.tasks[i].chunk}
            then [DownloadComplete] else []
        else if Wakes(s, input.event) && forall d :: 0 <= d < s.manifest.total ==> d in s.have
        then [DownloadComplete] else []
  {
    hide Step, Before, Wakes, Schedules, ScheduleNext, Stored;
    if input.event.PutResolved? {
      PutReports(s, input, hash);
    } else {
      var b := Before(s, input, hash);
      WakesSchedules(s, input.event);
      StepSplits(s, input, hash);
      BeforeLeaves(s, input, hash);
      if Wakes(s, input.event) {
        WakesTouchNoData(s, input, hash);
        PassReports(b, input.sends);
      }
    }
  }
}
