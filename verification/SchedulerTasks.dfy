/** What becomes of one suspended task, whatever else happens meanwhile. */
module SchedulerTasks {
  import opened Bitfields
  import opened Bytes
  import opened OrderedMaps
  import opened SchedulerModel
  import opened SchedulerPass
  import opened SchedulerSafety
  import opened SchedulerAtomic
  import Reassembling

  /** The event resumes the task at `i`. */
  predicate Resumes(event: Event, i: nat) {
    match event
    case FetchResolved(k, _) => k == i
    case VerifyResolved(k) => k == i
    case PutResolved(k) => k == i
    case AwaitRejected(k) => k == i
    case Continued(k) => k == i
    case _ => false
  }

  /** The event ends a task that stands before `i`. */
  predicate EndsBefore(s: Scheduler, event: Event, i: nat) {
    match event
    case AwaitRejected(k) => k < i && Waits(s, k) && !s.tasks[k].phase.Settling? && s.tasks[k].fromP2P
    case Continued(k) => k < i && Waits(s, k) && s.tasks[k].phase.Settling?
    case _ => false
  }

  /** Where the task at `i` stands after the event. */
  function Moved(s: Scheduler, event: Event, i: nat): nat {
    if EndsBefore(s, event, i) then i - 1 else i
  }

  ghost predicate SameTask(s: Scheduler, i: nat, t: Scheduler, k: nat) {
    Waits(s, i) && Waits(t, k) && t.tasks[k] == s.tasks[i] && t.manifest == s.manifest
  }

  // ---------------------------------------------------------------- one event

  lemma MoreTasks(s: Scheduler, t: Scheduler, i: nat)
    requires Waits(s, i) && s.tasks <= t.tasks && t.manifest == s.manifest
    ensures SameTask(s, i, t, i)
  {
  }

  lemma TasksGrow(s: Scheduler, t: Scheduler)
    requires Grows(s, t)
    ensures s.tasks <= t.tasks && t.manifest == s.manifest
  {
    hide Offers, Idle;
  }

  lemma NextAddsTasks(s: Scheduler, sends: Sends)
    ensures s.tasks <= ScheduleNext(s, sends).tasks && ScheduleNext(s, sends).manifest == s.manifest
  {
    hide Pass, Grows;
    PassGrows(s, sends);
    TasksGrow(s, Pass(s, sends));
  }

  lemma ChunkAddsTasks(s: Scheduler, c: nat, retries: nat, sends: Sends)
    ensures s.tasks <= ScheduleChunk(s, c, retries, sends).tasks
  {
    hide ScheduleChunk, Offers;
    if c in s.have {
      PossessedStays(s, c, retries, sends);
    } else {
      ChunkPlaces(s, c, retries, sends);
    }
  }

  lemma {:induction false} RequeueAddsTasks(s: Scheduler, lost: OrderedMap<nat, Request>, p: PeerId, k: nat,
                                            sends: Sends)
    requires k <= |lost.keys|
    ensures s.tasks <= Requeue(s, lost, p, k, sends).tasks
  {
    hide ScheduleChunk;
    if k == 0 {
    } else {
      RequeueAddsTasks(s, lost, p, k - 1, sends);
      var t, c := Requeue(s, lost, p, k - 1, sends), lost.keys[k - 1];
      ChunkAddsTasks(Abandon(t, c), c, lost.vals[c].retries + 1, sends);
    }
  }

  lemma PieceAddsTasks(s: Scheduler, c: nat, offset: nat, total: nat, data: Bytes)
    ensures var t := HandlePiece(s, c, offset, total, data);
      s.tasks <= t.tasks && t.manifest == s.manifest
  {
    hide Reassembling.Complete, Reassembling.Overruns, Reassembling.Assembled, Received, PhaseFor;
  }

  lemma ElsewhereMoves(s: Scheduler, j: nat, phase: Phase, i: nat)
    requires Waits(s, i) && Waits(s, j) && i != j
    ensures SameTask(s, i, Move(s, j, phase), i)
  {
  }

  lemma ElsewhereDrops(s: Scheduler, j: nat, i: nat)
    requires Waits(s, i) && Waits(s, j) && i != j
    ensures SameTask(s, i, Drop(s, j), if j < i then i - 1 else i)
    ensures Drop(s, j).manifest == s.manifest
  {
  }

  lemma FetchedElsewhere(s: Scheduler, j: nat, data: Bytes, i: nat)
    requires Waits(s, i) && i != j
    ensures SameTask(s, i, Fetched(s, j, data), i)
  {
    hide PhaseFor, Move;
    if Waits(s, j) {
      ElsewhereMoves(s, j, PhaseFor(s.manifest, s.tasks[j].chunk, data), i);
    }
  }

  lemma VerifiedElsewhere(s: Scheduler, j: nat, hash: Bytes -> Digest, i: nat)
    requires Waits(s, i) && i != j
    ensures SameTask(s, i, Verified(s, j, hash), i)
  {
    hide Authentic, Move;
    if Waits(s, j) && s.tasks[j].phase.Verifying? {
      var t := DispatchOrigin(s, s.tasks[j].chunk);
      ElsewhereMoves(s, j, Storing(s.tasks[j].phase.data), i);
      MoreTasks(s, t, i);
      ElsewhereMoves(t, j, Settling, i);
    }
  }

  lemma StoredElsewhere(s: Scheduler, j: nat, i: nat)
    requires Waits(s, i) && i != j
    ensures SameTask(s, i, Stored(s, j), i)
  {
  }

  lemma RejectedElsewhere(s: Scheduler, j: nat, i: nat)
    requires Waits(s, i) && i != j
    ensures SameTask(s, i, Rejected(s, j), Moved(s, AwaitRejected(j), i))
  {
    hide Drop, Move;
    if Waits(s, j) {
      ElsewhereDrops(s, j, i);
      ElsewhereMoves(s, j, Settling, i);
    }
  }

  lemma ResumedElsewhere(s: Scheduler, j: nat, i: nat)
    requires Waits(s, i) && i != j
    ensures SameTask(s, i, Resumed(s, j), Moved(s, Continued(j), i))
  {
    hide Drop;
    if Waits(s, j) {
      ElsewhereDrops(s, j, i);
    }
  }

  lemma TimeoutAddsTasks(s: Scheduler, c: nat, sends: Sends)
    requires c in s.inFlight.vals
    ensures var t := ScheduleChunk(Abandon(s, c), c, s.inFlight.vals[c].retries + 1, sends);
      s.tasks <= t.tasks && t.manifest == s.manifest
  {
    hide ScheduleChunk;
    ChunkAddsTasks(Abandon(s, c), c, s.inFlight.vals[c].retries + 1, sends);
    ChunkKeepsRest(Abandon(s, c), c, s.inFlight.vals[c].retries + 1, sends);
  }

  lemma LostAddsTasks(s: Scheduler, p: PeerId, sends: Sends)
    ensures var t := Requeue(Forget(s, p), s.inFlight, p, |s.inFlight.keys|, sends);
      s.tasks <= t.tasks && t.manifest == s.manifest
  {
    hide Requeue;
    RequeueAddsTasks(Forget(s, p), s.inFlight, p, |s.inFlight.keys|, sends);
    RequeueKeepsRest(Forget(s, p), s.inFlight, p, |s.inFlight.keys|, sends);
  }

  lemma BeforeMoves(s: Scheduler, input: Input, hash: Bytes -> Digest, i: nat)
    requires Waits(s, i) && !Resumes(input.event, i)
    ensures SameTask(s, i, Before(s, input, hash), Moved(s, input.event, i))
  {
    hide SameTask, ScheduleChunk, Requeue, HandlePiece, Fetched, Rejected, Resumed, Verified, Stored, Marked,
      MarkShared, Abandon, Forget;
    var t := Before(s, input, hash);
    MoreTasks(s, s, i);
    if ConcernsPeers(input.event) {
      PeersLeave(s, input, hash);
      MoreTasks(s, t, i);
    } else {
      match input.event
      case LostPeer(p) =>
        LostAddsTasks(s, p, input.sends);
        MoreTasks(s, t, i);
      case TimedOut(c) =>
        if c in s.inFlight.vals {
          TimeoutAddsTasks(s, c, input.sends);
          MoreTasks(s, t, i);
        }
      case GotPiece(c, offset, total, data) =>
        PieceAddsTasks(s, c, offset, total, data);
        MoreTasks(s, t, i);
      case FetchResolved(j, data) => FetchedElsewhere(s, j, data, i);
      case VerifyResolved(j) => VerifiedElsewhere(s, j, hash, i);
      case PutResolved(j) => StoredElsewhere(s, j, i);
      case AwaitRejected(j) => RejectedElsewhere(s, j, i);
      case Continued(j) => ResumedElsewhere(s, j, i);
      case Stopped => MoreTasks(s, t, i);
    }
  }

  /** A task waits as it is, and moves up only, until it is resumed itself. */
  lemma StepMoves(s: Scheduler, input: Input, hash: Bytes -> Digest, i: nat)
    requires Waits(s, i) && !Resumes(input.event, i)
    ensures SameTask(s, i, Step(s, input, hash), Moved(s, input.event, i))
  {
    hide Before, Step, Schedules, ScheduleNext, Moved, Resumes;
    StepSplits(s, input, hash);
    BeforeMoves(s, input, hash, i);
    NextAddsTasks(Before(s, input, hash), input.sends);
  }

  // ---------------------------------------------------------------- runs

  function MovedBy(s: Scheduler, inputs: seq<Input>, hash: Bytes -> Digest, i: nat): nat {
    if inputs == [] then i
    else
      var front, last := inputs[..|inputs| - 1], inputs[|inputs| - 1];
      Moved(Run(s, front, hash), last.event, MovedBy(s, front, hash, i))
  }

  /** No input resumes the task, wherever it stands by then. */
  predicate LeftAlone(s: Scheduler, inputs: seq<Input>, hash: Bytes -> Digest, i: nat) {
    inputs == [] ||
    var front, last := inputs[..|inputs| - 1], inputs[|inputs| - 1];
    LeftAlone(s, front, hash, i) && !Resumes(last.event, MovedBy(s, front, hash, i))
  }

  lemma {:induction false} RunMoves(s: Scheduler, inputs: seq<Input>, hash: Bytes -> Digest, i: nat)
    requires Waits(s, i) && LeftAlone(s, inputs, hash, i)
    ensures SameTask(s, i, Run(s, inputs, hash), MovedBy(s, inputs, hash, i))
  {
    hide Step, Moved, Resumes;
    if inputs == [] {
    } else {
      var front, last := inputs[..|inputs| - 1], inputs[|inputs| - 1];
      RunMoves(s, front, hash, i);
      StepMoves(Run(s, front, hash), last, hash, MovedBy(s, front, hash, i));
    }
  }

  // ---------------------------------------------------------------- acceptance

  /** After `between` the hash of the task is there, and after `later` its write is done. */
  function Hashed(s: Scheduler, between: seq<Input>, hash: Bytes -> Digest, i: nat): Scheduler {
    Verified(Run(s, between, hash), MovedBy(s, between, hash, i), hash)
  }

  function Written(s: Scheduler, between: seq<Input>, later: seq<Input>, hash: Bytes -> Digest, i: nat): Scheduler {
    var t, k := Hashed(s, between, hash, i), MovedBy(s, between, hash, i);
    Stored(Run(t, later, hash), MovedBy(t, later, hash, k))
  }

  /** Nothing else resumes the task on the way. */
  predicate Uninterrupted(s: Scheduler, between: seq<Input>, later: seq<Input>, hash: Bytes -> Digest, i: nat) {
    && LeftAlone(s, between, hash, i)
    && LeftAlone(Hashed(s, between, hash, i), later, hash, MovedBy(s, between, hash, i))
  }

  /** The inputs that lead there. */
  function Writing(s: Scheduler, between: seq<Input>, later: seq<Input>, sends: Sends, hash: Bytes -> Digest, i: nat)
    : seq<Input>
  {
    var t, k := Hashed(s, between, hash, i), MovedBy(s, between, hash, i);
    between + [Input(VerifyResolved(k), sends)] + later + [Input(PutResolved(MovedBy(t, later, hash, k)), sends)]
  }

  lemma WrittenIsRun(s: Scheduler, between: seq<Input>, later: seq<Input>, sends: Sends, hash: Bytes -> Digest, i: nat)
    ensures Run(s, Writing(s, between, later, sends, hash, i), hash) == Written(s, between, later, hash, i)
  {
    hide Run, Step, Verified, Stored, MovedBy;
    var k := MovedBy(s, between, hash, i);
    var a := Input(VerifyResolved(k), sends);
    var t := Hashed(s, between, hash, i);
    var b := Input(PutResolved(MovedBy(t, later, hash, k)), sends);
    RunAppend(s, between, [a], hash);
    RunOne(Run(s, between, hash), a, hash);
    StepResumes(Run(s, between, hash), a, hash);
    RunAppend(s, between + [a], later, hash);
    RunAppend(s, between + [a] + later, [b], hash);
    RunOne(Run(t, later, hash), b, hash);
    StepResumes(Run(t, later, hash), b, hash);
  }

  lemma HashedStores(s: Scheduler, i: nat, hash: Bytes -> Digest)
    requires Waits(s, i) && s.tasks[i].phase.Verifying?
    requires Authentic(s.manifest, hash, s.tasks[i].chunk, s.tasks[i].phase.data)
    ensures var t := Verified(s, i, hash);
      && Waits(t, i) && t.manifest == s.manifest
      && t.tasks[i] == s.tasks[i].(phase := Storing(s.tasks[i].phase.data))
  {
  }

  lemma StoredAccepts(s: Scheduler, i: nat)
    requires Waits(s, i) && s.tasks[i].phase.Storing?
    ensures var c, data, t := s.tasks[i].chunk, s.tasks[i].phase.data, Stored(s, i);
      && t.have == s.have + {c} && t.store == s.store[c := data]
      && HaveSent(c) in t.log && Completed(c, s.tasks[i].fromP2P, |data|) in t.log
  {
    hide Full;
    var c, data, t := s.tasks[i].chunk, s.tasks[i].phase.data, Stored(s, i);
    var added := s.log + [HaveSent(c), Completed(c, s.tasks[i].fromP2P, |data|)];
    assert added[|s.log|] == HaveSent(c) && added[|s.log| + 1] == Completed(c, s.tasks[i].fromP2P, |data|);
    assert t.log == added || t.log == added + [DownloadComplete];
  }

  /**
   * Bytes that have the manifest's hash are marked, stored, announced and reported, whatever
   * happens while they are hashed and written.
   */
  lemma Accepted(s: Scheduler, between: seq<Input>, later: seq<Input>, hash: Bytes -> Digest, i: nat)
    requires Waits(s, i) && s.tasks[i].phase.Verifying? && Uninterrupted(s, between, later, hash, i)
    requires Authentic(s.manifest, hash, s.tasks[i].chunk, s.tasks[i].phase.data)
    ensures var c, data, t := s.tasks[i].chunk, s.tasks[i].phase.data, Written(s, between, later, hash, i);
      && c in t.have && c in t.store && t.store[c] == data
      && HaveSent(c) in t.log && Completed(c, s.tasks[i].fromP2P, |data|) in t.log
  {
    hide Run, MovedBy, LeftAlone, Verified, Stored, Authentic;
    var k := MovedBy(s, between, hash, i);
    RunMoves(s, between, hash, i);
    HashedStores(Run(s, between, hash), k, hash);
    var t := Hashed(s, between, hash, i);
    RunMoves(t, later, hash, k);
    StoredAccepts(Run(t, later, hash), MovedBy(t, later, hash, k));
  }
}
