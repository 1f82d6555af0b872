/** What holds after every step of every interleaving. */
module SchedulerSafety {
  import opened Bitfields
  import opened Bytes
  import opened OrderedMaps
  import opened SchedulerModel
  import opened SchedulerPass
  import Reassembling

  // ---------------------------------------------------------------- the shape of a handler

  /** Whether the handler ends by calling `scheduleNext`. */
  predicate Schedules(s: Scheduler, event: Event) {
    match event
    case Started => !s.running
    case GotBitfield(_, _) => s.running
    case GotHave(p, c) => s.running && c < KnownPeer(s, p).peers.vals[p].total
    case GotChoke(_, choked) => s.running && !choked
    case LostPeer(_) => s.running
    case TimedOut(c) => c in s.inFlight.vals
    case Continued(i) => s.running && Waits(s, i) && s.tasks[i].phase.Settling?
    case _ => false
  }

  function Marked(s: Scheduler, p: PeerId, c: nat): Scheduler {
    var t := KnownPeer(s, p);
    var bits := t.peers.vals[p];
    if c >= bits.total then t else t.(peers := t.peers.Set(p, bits.(bits := bits.bits + {c})))
  }

  function Resumed(s: Scheduler, i: nat): Scheduler {
    if Waits(s, i) && s.tasks[i].phase.Settling? then
      if s.tasks[i].fromP2P then Drop(s, i) else Drop(s, i).(atOrigin := s.atOrigin - {s.tasks[i].chunk})
    else s
  }

  /** The state before that call. */
  function Before(s: Scheduler, input: Input, hash: Bytes -> Digest): Scheduler {
    match input.event
    case Started => s.(running := true)
    case Stopped => Stop(s)
    case GotBitfield(p, bits) =>
      s.(peers := s.peers.Set(p, bits), choked := if p in s.choked then s.choked else s.choked[p := false])
    case GotHave(p, c) => Marked(s, p, c)
    case SharedHave(p, c) => MarkShared(s, p, c)
    case GotChoke(p, choked) => s.(choked := s.choked[p := choked])
    case LostPeer(p) => Requeue(Forget(s, p), s.inFlight, p, |s.inFlight.keys|, input.sends)
    case TimedOut(c) =>
      if c !in s.inFlight.vals then s
      else ScheduleChunk(Abandon(s, c), c, s.inFlight.vals[c].retries + 1, input.sends)
    case GotPiece(c, offset, total, data) => HandlePiece(s, c, offset, total, data)
    case FetchResolved(i, data) => Fetched(s, i, data)
    case VerifyResolved(i) => Verified(s, i, hash)
    case PutResolved(i) => Stored(s, i)
    case AwaitRejected(i) => Rejected(s, i)
    case Continued(i) => Resumed(s, i)
  }

  /** Starting, or hearing what a peer has or wants. */
  predicate ConcernsPeers(event: Event) {
    event.Started? || event.GotBitfield? || event.GotHave? || event.SharedHave? || event.GotChoke?
  }

  lemma {:induction false} ChunkKeepsRest(s: Scheduler, c: nat, retries: nat, sends: Sends)
    ensures var t := ScheduleChunk(s, c, retries, sends);
      && t.running == s.running && t.log == s.log && t.peers == s.peers && t.choked == s.choked
      && t.manifest == s.manifest && t.reassembly == s.reassembly
  {
    if c !in s.have {
      ChunkPlaces(s, c, retries, sends);
    }
  }

  lemma {:induction false} RequeueKeepsRest(s: Scheduler, lost: OrderedMap<nat, Request>, p: PeerId, k: nat,
                                            sends: Sends)
    requires k <= |lost.keys|
    ensures var t := Requeue(s, lost, p, k, sends);
      t.running == s.running && t.log == s.log && t.peers == s.peers && t.choked == s.choked && t.manifest == s.manifest
  {
    hide ScheduleChunk;
    if k == 0 {
    } else {
      RequeueKeepsRest(s, lost, p, k - 1, sends);
      var t, c := Requeue(s, lost, p, k - 1, sends), lost.keys[k - 1];
      ChunkKeepsRest(Abandon(t, c), c, lost.vals[c].retries + 1, sends);
    }
  }

  lemma StepSplits(s: Scheduler, input: Input, hash: Bytes -> Digest)
    ensures Step(s, input, hash) ==
      if Schedules(s, input.event) then ScheduleNext(Before(s, input, hash), input.sends) else Before(s, input, hash)
  {
    hide ScheduleNext, ScheduleChunk, Requeue;
    if input.event.LostPeer? {
      RequeueKeepsRest(Forget(s, input.event.peer), s.inFlight, input.event.peer, |s.inFlight.keys|, input.sends);
    }
  }

  // ---------------------------------------------------------------- steps that touch no data

  /** Nothing is stored or marked, and no new task is about to store. */
  ghost predicate Quiet(s: Scheduler, t: Scheduler) {
    && t.manifest == s.manifest
    && t.have == s.have
    && t.store == s.store
    && (forall o :: o in t.log ==> o in s.log || o == DownloadComplete)
    && (forall task :: task in t.tasks && task.phase.Storing? ==> task in s.tasks)
  }

  lemma GrowsQuiet(s: Scheduler, t: Scheduler)
    requires Grows(s, t)
    ensures Quiet(s, t)
  {
    forall task | task in t.tasks && task.phase.Storing? ensures task in s.tasks {
      var i :| 0 <= i < |t.tasks| && t.tasks[i] == task;
      assert i < |s.tasks| ==> s.tasks[i] == task;
    }
  }

  lemma ScheduleNextQuiet(s: Scheduler, sends: Sends)
    ensures Quiet(s, ScheduleNext(s, sends))
  {
    PassGrows(s, sends);
    GrowsQuiet(s, Pass(s, sends));
  }

  lemma PlacedQuiet(s: Scheduler, t: Scheduler, c: nat, retries: nat)
    requires Placed(s, t, c, retries)
    ensures Quiet(s, t)
  {
  }

  lemma ScheduleChunkQuiet(s: Scheduler, c: nat, retries: nat, sends: Sends)
    ensures Quiet(s, ScheduleChunk(s, c, retries, sends))
  {
    if c !in s.have {
      ChunkPlaces(s, c, retries, sends);
      PlacedQuiet(s, ScheduleChunk(s, c, retries, sends), c, retries);
    }
  }

  lemma {:induction false} RequeueQuiet(s: Scheduler, lost: OrderedMap<nat, Request>, p: PeerId, k: nat, sends: Sends)
    requires k <= |lost.keys|
    ensures Quiet(s, Requeue(s, lost, p, k, sends))
  {
    hide ScheduleChunk;
    if k == 0 {
    } else {
      RequeueQuiet(s, lost, p, k - 1, sends);
      var t, c := Requeue(s, lost, p, k - 1, sends), lost.keys[k - 1];
      ScheduleChunkQuiet(Abandon(t, c), c, lost.vals[c].retries + 1, sends);
    }
  }

  lemma PieceQuiet(s: Scheduler, c: nat, offset: nat, total: nat, data: Bytes)
    ensures Quiet(s, HandlePiece(s, c, offset, total, data))
  {
    hide Reassembling.Complete, Reassembling.Overruns, Reassembling.Assembled, Received;
  }

  lemma MoveQuiet(s: Scheduler, i: nat, phase: Phase)
    requires Waits(s, i) && !phase.Storing?
    ensures Quiet(s, Move(s, i, phase))
  {
    forall task | task in Move(s, i, phase).tasks && task.phase.Storing? ensures task in s.tasks {
      var j :| 0 <= j < |s.tasks| && Move(s, i, phase).tasks[j] == task;
      assert s.tasks[j] == task;
    }
  }

  lemma DropQuiet(s: Scheduler, i: nat)
    requires Waits(s, i)
    ensures Quiet(s, Drop(s, i))
  {
  }

  lemma ResumedQuiet(s: Scheduler, i: nat)
    ensures Quiet(s, Resumed(s, i))
  {
    hide Drop;
    if Waits(s, i) {
      DropQuiet(s, i);
    }
  }

  lemma WaitQuiet(s: Scheduler, i: nat, data: Bytes)
    ensures Quiet(s, Fetched(s, i, data)) && Quiet(s, Rejected(s, i))
  {
    hide Drop, Move;
    if Waits(s, i) {
      DropQuiet(s, i);
      MoveQuiet(s, i, Settling);
      MoveQuiet(s, i, PhaseFor(s.manifest, s.tasks[i].chunk, data));
    }
  }

  lemma SameDataQuiet(s: Scheduler, t: Scheduler)
    requires t.manifest == s.manifest && t.have == s.have && t.store == s.store && t.log == s.log && t.tasks == s.tasks
    ensures Quiet(s, t)
  {
  }

  lemma QuietCompose(s: Scheduler, t: Scheduler, u: Scheduler)
    requires Quiet(s, t) && Quiet(t, u)
    ensures Quiet(s, u)
  {
  }

  lemma PeersQuiet(s: Scheduler, input: Input, hash: Bytes -> Digest)
    requires ConcernsPeers(input.event)
    ensures Quiet(s, Before(s, input, hash))
  {
    hide Quiet, Before;
    PeersLeave(s, input, hash);
    SameDataQuiet(s, Before(s, input, hash));
  }

  /** Only a verified hash and a finished write change more than `Quiet` allows. */
  lemma BeforeQuiet(s: Scheduler, input: Input, hash: Bytes -> Digest)
    requires !input.event.VerifyResolved? && !input.event.PutResolved?
    ensures Quiet(s, Before(s, input, hash))
  {
    hide Quiet, ScheduleChunk, Requeue, HandlePiece, Fetched, Rejected, Resumed;
    var t := Before(s, input, hash);
    match input.event
    case LostPeer(p) =>
      SameDataQuiet(s, Forget(s, p));
      RequeueQuiet(Forget(s, p), s.inFlight, p, |s.inFlight.keys|, input.sends);
      QuietCompose(s, Forget(s, p), t);
    case TimedOut(c) =>
      SameDataQuiet(s, s);
      if c in s.inFlight.vals {
        SameDataQuiet(s, Abandon(s, c));
        ScheduleChunkQuiet(Abandon(s, c), c, s.inFlight.vals[c].retries + 1, input.sends);
        QuietCompose(s, Abandon(s, c), t);
      }
    case GotPiece(c, offset, total, data) => PieceQuiet(s, c, offset, total, data);
    case FetchResolved(i, data) => WaitQuiet(s, i, data);
    case AwaitRejected(i) => WaitQuiet(s, i, []);
    case Continued(i) => ResumedQuiet(s, i);
    case Stopped => SameDataQuiet(s, Stop(s));
    case _ => PeersQuiet(s, input, hash);
  }

  lemma StepQuiet(s: Scheduler, input: Input, hash: Bytes -> Digest)
    requires !input.event.VerifyResolved? && !input.event.PutResolved?
    ensures Quiet(s, Step(s, input, hash))
  {
    hide Before, Step, Schedules, ScheduleNext;
    StepSplits(s, input, hash);
    BeforeQuiet(s, input, hash);
    ScheduleNextQuiet(Before(s, input, hash), input.sends);
  }

  // ---------------------------------------------------------------- store and bitfield

  /** A set bit means that the store holds bytes with the manifest's hash. */
  ghost predicate Agrees(s: Scheduler, hash: Bytes -> Digest) {
    forall c: nat :: c in s.have ==>
      c < s.manifest.total && c in s.store && Authentic(s.manifest, hash, c, s.store[c])
  }

  ghost predicate Announced(s: Scheduler) {
    forall c: nat :: HaveSent(c) in s.log ==> c in s.have
  }

  /** Whatever waits to be stored was verified. */
  ghost predicate WritesVerified(s: Scheduler, hash: Bytes -> Digest) {
    forall task :: task in s.tasks && task.phase.Storing? ==>
      task.chunk < s.manifest.total && Authentic(s.manifest, hash, task.chunk, task.phase.data)
  }

  ghost predicate TasksInRange(s: Scheduler) {
    && (forall task :: task in s.tasks ==> task.chunk < s.manifest.total)
    && (forall c: nat :: c in s.inFlight.vals ==> c < s.manifest.total)
  }

  ghost predicate Sound(s: Scheduler, hash: Bytes -> Digest) {
    Agrees(s, hash) && Announced(s) && WritesVerified(s, hash)
  }

  lemma MovedTask(s: Scheduler, i: nat, phase: Phase, task: Task)
    requires Waits(s, i) && task in Move(s, i, phase).tasks
    ensures task in s.tasks || task == s.tasks[i].(phase := phase)
  {
    var t := Move(s, i, phase);
    var j :| 0 <= j < |t.tasks| && t.tasks[j] == task;
    if j != i {
      assert s.tasks[j] == task;
    }
  }

  /** What a hash result adds to the waiting writes was verified. */
  lemma VerifiedWrites(s: Scheduler, i: nat, hash: Bytes -> Digest, task: Task)
    requires task in Verified(s, i, hash).tasks && task.phase.Storing?
    ensures task in s.tasks
      || (Waits(s, i) && task.chunk == s.tasks[i].chunk && Authentic(s.manifest, hash, task.chunk, task.phase.data))
  {
    hide Authentic, Move;
    if Waits(s, i) && s.tasks[i].phase.Verifying? {
      var c, data := s.tasks[i].chunk, s.tasks[i].phase.data;
      if Authentic(s.manifest, hash, c, data) {
        MovedTask(s, i, Storing(data), task);
      } else {
        MovedTask(DispatchOrigin(s, c), i, Settling, task);
      }
    }
  }

  lemma MoveLeaves(s: Scheduler, i: nat, phase: Phase)
    requires Waits(s, i)
    ensures Move(s, i, phase) == s.(tasks := Move(s, i, phase).tasks)
  {
  }

  /** Verifying touches nothing but the tasks and the marks for the origin. */
  lemma VerifyingLeaves(s: Scheduler, i: nat, hash: Bytes -> Digest)
    ensures var t := Verified(s, i, hash);
      t == s.(tasks := t.tasks, atOrigin := t.atOrigin)
  {
    hide Move;
    if Waits(s, i) && s.tasks[i].phase.Verifying? {
      MoveLeaves(s, i, Storing(s.tasks[i].phase.data));
      MoveLeaves(DispatchOrigin(s, s.tasks[i].chunk), i, Settling);
    }
  }

  lemma VerifiedSound(s: Scheduler, i: nat, hash: Bytes -> Digest)
    requires Sound(s, hash) && TasksInRange(s)
    ensures Sound(Verified(s, i, hash), hash)
    ensures Verified(s, i, hash).have == s.have && Verified(s, i, hash).manifest == s.manifest
  {
    hide Verified, Authentic;
    VerifyingLeaves(s, i, hash);
    var t := Verified(s, i, hash);
    forall task | task in t.tasks && task.phase.Storing?
      ensures task.chunk < t.manifest.total && Authentic(t.manifest, hash, task.chunk, task.phase.data)
    {
      VerifiedWrites(s, i, hash, task);
      if Waits(s, i) {
        assert s.tasks[i] in s.tasks;
      }
    }
  }

  lemma StoredSound(s: Scheduler, i: nat, hash: Bytes -> Digest)
    requires Sound(s, hash)
    ensures Sound(Stored(s, i), hash)
    ensures s.have <= Stored(s, i).have && Stored(s, i).manifest == s.manifest
  {
    hide Full, Move;
    var t := Stored(s, i);
    if Waits(s, i) && s.tasks[i].phase.Storing? {
      assert s.tasks[i] in s.tasks;
      MoveLeaves(s, i, Settling);
      forall task | task in t.tasks && task.phase.Storing? ensures task in s.tasks {
        MovedTask(s, i, Settling, task);
      }
    }
  }

  // ---------------------------------------------------------------- bookkeeping

  ghost predicate Bounded(s: Scheduler) {
    && (forall c: nat :: c in s.inFlight.vals ==> c < s.manifest.total && s.inFlight.vals[c].retries <= REQUEST_RETRIES)
    && |s.inFlight.vals| <= MAX_TOTAL_IN_FLIGHT
    && s.reassembly.Keys <= s.inFlight.vals.Keys
  }

  ghost predicate HasFetch(s: Scheduler, c: nat) {
    exists i :: 0 <= i < |s.tasks| && s.tasks[i].chunk == c && !s.tasks[i].fromP2P
  }

  /** Every chunk marked as being at the origin has a task that will unmark it. */
  ghost predicate Backed(s: Scheduler) {
    forall c: nat :: c in s.atOrigin ==> HasFetch(s, c)
  }

  ghost predicate TasksWell(s: Scheduler) {
    forall i :: 0 <= i < |s.tasks| ==>
      s.tasks[i].chunk < s.manifest.total && !(s.tasks[i].fromP2P && s.tasks[i].phase.Fetching?)
  }

  ghost predicate Tidy(s: Scheduler) {
    Bounded(s) && Backed(s) && TasksWell(s)
  }

  lemma GrowsTidy(s: Scheduler, t: Scheduler)
    requires Tidy(s) && Grows(s, t) && |t.inFlight.vals| <= MAX_TOTAL_IN_FLIGHT
    ensures Tidy(t)
  {
    forall c: nat | c in t.atOrigin ensures HasFetch(t, c) {
      if c in s.atOrigin {
        var i :| 0 <= i < |s.tasks| && s.tasks[i].chunk == c && !s.tasks[i].fromP2P;
        assert t.tasks[i] == s.tasks[i];
      } else {
        var i :| |s.tasks| <= i < |t.tasks| && t.tasks[i].chunk == c;
        assert t.tasks[i] == Task(c, false, Fetching);
      }
    }
    forall i | 0 <= i < |t.tasks|
      ensures t.tasks[i].chunk < t.manifest.total && !(t.tasks[i].fromP2P && t.tasks[i].phase.Fetching?)
    {
      if i < |s.tasks| {
        assert t.tasks[i] == s.tasks[i];
      }
    }
  }

  lemma ScheduleNextTidy(s: Scheduler, sends: Sends)
    requires Tidy(s)
    ensures Tidy(ScheduleNext(s, sends))
  {
    hide Grows, Pass;
    PassGrows(s, sends);
    if !Complete(s) && s.running && Outstanding(s) < MAX_TOTAL_IN_FLIGHT {
      GrowsTidy(s, Pass(s, sends));
    }
  }

  lemma SameBounds(s: Scheduler, t: Scheduler)
    requires Bounded(s) && t.manifest == s.manifest && t.inFlight == s.inFlight && t.reassembly == s.reassembly
    ensures Bounded(t)
  {
  }

  lemma OriginTidy(s: Scheduler, c: nat)
    requires Tidy(s) && c < s.manifest.total
    ensures Tidy(DispatchOrigin(s, c))
  {
    hide Bounded;
    var t := DispatchOrigin(s, c);
    SameBounds(s, t);
    forall d: nat | d in t.atOrigin ensures HasFetch(t, d) {
      if d in s.atOrigin {
        var i :| 0 <= i < |s.tasks| && s.tasks[i].chunk == d && !s.tasks[i].fromP2P;
        assert t.tasks[i] == s.tasks[i];
      } else {
        assert t.tasks[|s.tasks|] == Task(d, false, Fetching);
      }
    }
  }

  /** A request for a chunk that is not in flight, while there is room for one. */
  lemma PlacedTidy(s: Scheduler, t: Scheduler, c: nat, retries: nat)
    requires Tidy(s) && Placed(s, t, c, retries)
    requires c < s.manifest.total && c !in s.inFlight.vals && |s.inFlight.vals| < MAX_TOTAL_IN_FLIGHT
    ensures Tidy(t)
  {
    if Asked(s, t, c, retries) {
      assert forall d :: HasFetch(s, d) ==> HasFetch(t, d);
    } else {
      OriginTidy(s, c);
    }
  }

  lemma AbandonTidy(s: Scheduler, c: nat)
    requires Tidy(s) && c in s.inFlight.vals
    ensures Tidy(Abandon(s, c)) && |Abandon(s, c).inFlight.vals| == |s.inFlight.vals| - 1
  {
    assert Abandon(s, c).inFlight.vals.Keys == s.inFlight.vals.Keys - {c};
    assert forall d :: HasFetch(s, d) ==> HasFetch(Abandon(s, c), d);
  }

  /** Apart from the new request for `c`, nothing that bookkeeping looks at changes. */
  ghost predicate OnlyAsks(s: Scheduler, t: Scheduler, c: nat) {
    && t.manifest == s.manifest && t.peers == s.peers && t.choked == s.choked && t.have == s.have
    && (forall d: nat :: d != c && d in s.inFlight.vals ==>
          d in t.inFlight.vals && t.inFlight.vals[d] == s.inFlight.vals[d])
    && (forall d: nat :: d in t.inFlight.vals ==> d in s.inFlight.vals || d == c)
    && (c in t.inFlight.vals && c !in s.inFlight.vals ==> t.inFlight.vals[c].peer in t.peers.vals)
  }

  lemma OriginOnlyAsks(s: Scheduler, c: nat)
    ensures OnlyAsks(s, DispatchOrigin(s, c), c)
  {
  }

  lemma AskedOnlyAsks(s: Scheduler, t: Scheduler, c: nat, retries: nat)
    requires Asked(s, t, c, retries)
    ensures OnlyAsks(s, t, c)
  {
  }

  lemma PlacedOnlyAsks(s: Scheduler, t: Scheduler, c: nat, retries: nat)
    requires Placed(s, t, c, retries)
    ensures OnlyAsks(s, t, c)
  {
    hide OnlyAsks;
    if t == DispatchOrigin(s, c) {
      OriginOnlyAsks(s, c);
    } else {
      AskedOnlyAsks(s, t, c, retries);
    }
  }

  lemma ChunkOnlyAsks(s: Scheduler, c: nat, retries: nat, sends: Sends)
    ensures OnlyAsks(s, ScheduleChunk(s, c, retries, sends), c)
  {
    if c !in s.have {
      hide Placed;
      ChunkPlaces(s, c, retries, sends);
      PlacedOnlyAsks(s, ScheduleChunk(s, c, retries, sends), c, retries);
    }
  }

  /** A request that is given up is replaced by at most one other request. */
  lemma ReplaceTidy(s: Scheduler, c: nat, retries: nat, sends: Sends)
    requires Tidy(s) && c in s.inFlight.vals
    ensures Tidy(ScheduleChunk(Abandon(s, c), c, retries, sends))
    ensures OnlyAsks(Abandon(s, c), ScheduleChunk(Abandon(s, c), c, retries, sends), c)
  {
    hide Placed, OnlyAsks;
    AbandonTidy(s, c);
    ChunkOnlyAsks(Abandon(s, c), c, retries, sends);
    if c !in s.have {
      ChunkPlaces(Abandon(s, c), c, retries, sends);
      PlacedTidy(Abandon(s, c), ScheduleChunk(Abandon(s, c), c, retries, sends), c, retries);
    }
  }

  ghost predicate KnownPeers(s: Scheduler) {
    forall c: nat :: c in s.inFlight.vals ==> s.inFlight.vals[c].peer in s.peers.vals
  }

  /** In the midst of `removePeer`: the entries from `k` on are as they were. */
  ghost predicate Requeuing(s: Scheduler, lost: OrderedMap<nat, Request>, p: PeerId, k: nat)
    requires k <= |lost.keys|
  {
    && (forall j :: k <= j < |lost.keys| ==>
          && lost.keys[j] in s.inFlight.vals
          && s.inFlight.vals[lost.keys[j]] == lost.vals[lost.keys[j]])
    && (forall c: nat :: c in s.inFlight.vals ==>
          || s.inFlight.vals[c].peer in s.peers.vals
          || (s.inFlight.vals[c].peer == p && exists j :: k <= j < |lost.keys| && lost.keys[j] == c))
  }

  lemma RequeuingTurn(s: Scheduler, t: Scheduler, lost: OrderedMap<nat, Request>, p: PeerId, k: nat)
    requires k < |lost.keys| && Requeuing(s, lost, p, k)
    requires OnlyAsks(Abandon(s, lost.keys[k]), t, lost.keys[k])
    ensures Requeuing(t, lost, p, k + 1) && t.peers == s.peers
  {
    var c := lost.keys[k];
    forall d: nat | d in t.inFlight.vals && t.inFlight.vals[d].peer !in t.peers.vals
      ensures t.inFlight.vals[d].peer == p && exists j :: k + 1 <= j < |lost.keys| && lost.keys[j] == d
    {
      assert d != c;
      var j :| k <= j < |lost.keys| && lost.keys[j] == d;
      assert j != k;
    }
  }

  lemma RequeueTurn(s: Scheduler, t: Scheduler, lost: OrderedMap<nat, Request>, p: PeerId, k: nat, retries: nat,
                    sends: Sends)
    requires k < |lost.keys| && Tidy(s) && Requeuing(s, lost, p, k)
    requires t == ScheduleChunk(Abandon(s, lost.keys[k]), lost.keys[k], retries, sends)
    ensures Tidy(t) && Requeuing(t, lost, p, k + 1) && t.peers == s.peers
  {
    hide Tidy, OnlyAsks, ScheduleChunk, Abandon;
    ReplaceTidy(s, lost.keys[k], retries, sends);
    RequeuingTurn(s, t, lost, p, k);
  }

  lemma RequeueSkips(s: Scheduler, lost: OrderedMap<nat, Request>, p: PeerId, k: nat)
    requires k < |lost.keys| && Requeuing(s, lost, p, k) && lost.vals[lost.keys[k]].peer != p
    ensures Requeuing(s, lost, p, k + 1)
  {
    forall c: nat | c in s.inFlight.vals && s.inFlight.vals[c].peer !in s.peers.vals
      ensures s.inFlight.vals[c].peer == p && exists j :: k + 1 <= j < |lost.keys| && lost.keys[j] == c
    {
      var j :| k <= j < |lost.keys| && lost.keys[j] == c;
      assert j != k;
    }
  }

  lemma {:induction false} RequeueTidy(s: Scheduler, lost: OrderedMap<nat, Request>, p: PeerId, k: nat, sends: Sends)
    requires k <= |lost.keys| && Tidy(s) && Requeuing(s, lost, p, 0) && p !in s.peers.vals
    ensures var t := Requeue(s, lost, p, k, sends);
      Tidy(t) && Requeuing(t, lost, p, k) && t.peers == s.peers
  {
    hide Tidy, ScheduleChunk, Abandon, Requeuing;
    if k == 0 {
    } else {
      RequeueTidy(s, lost, p, k - 1, sends);
      var t := Requeue(s, lost, p, k - 1, sends);
      var c := lost.keys[k - 1];
      if lost.vals[c].peer == p {
        RequeueTurn(t, Requeue(s, lost, p, k, sends), lost, p, k - 1, lost.vals[c].retries + 1, sends);
      } else {
        RequeueSkips(t, lost, p, k - 1);
      }
    }
  }

  lemma ForgetTidy(s: Scheduler, p: PeerId)
    requires Tidy(s) && KnownPeers(s)
    ensures Tidy(Forget(s, p)) && Requeuing(Forget(s, p), s.inFlight, p, 0)
  {
    var f := Forget(s, p);
    assert forall c :: HasFetch(s, c) ==> HasFetch(f, c);
    forall c: nat | c in f.inFlight.vals && f.inFlight.vals[c].peer !in f.peers.vals
      ensures f.inFlight.vals[c].peer == p && exists j :: 0 <= j < |s.inFlight.keys| && s.inFlight.keys[j] == c
    {
      assert c in s.inFlight.keys;
    }
  }

  lemma RemovedTidy(s: Scheduler, p: PeerId, sends: Sends)
    requires Tidy(s) && KnownPeers(s)
    ensures var t := Requeue(Forget(s, p), s.inFlight, p, |s.inFlight.keys|, sends);
      Tidy(t) && KnownPeers(t)
  {
    hide Tidy, Requeue;
    ForgetTidy(s, p);
    RequeueTidy(Forget(s, p), s.inFlight, p, |s.inFlight.keys|, sends);
  }

  lemma ForgetNothing(s: Scheduler, t: Scheduler)
    requires Tidy(s) && KnownPeers(s)
    requires t.manifest == s.manifest && t.inFlight == s.inFlight && t.reassembly.Keys <= t.inFlight.vals.Keys
    requires t.atOrigin <= s.atOrigin && t.tasks == s.tasks && s.peers.vals.Keys <= t.peers.vals.Keys
    ensures Tidy(t) && KnownPeers(t)
  {
    assert forall c :: HasFetch(s, c) ==> HasFetch(t, c);
  }

  lemma StopTidy(s: Scheduler)
    requires Tidy(s)
    ensures Tidy(Stop(s)) && KnownPeers(Stop(s))
  {
  }

  lemma TimeoutTidy(s: Scheduler, c: nat, sends: Sends)
    requires Tidy(s) && KnownPeers(s) && c in s.inFlight.vals
    ensures var t := ScheduleChunk(Abandon(s, c), c, s.inFlight.vals[c].retries + 1, sends);
      Tidy(t) && KnownPeers(t)
  {
    hide Tidy, ScheduleChunk;
    ReplaceTidy(s, c, s.inFlight.vals[c].retries + 1, sends);
  }

  lemma AppendTidy(s: Scheduler, task: Task)
    requires Tidy(s) && task.fromP2P && task.chunk < s.manifest.total && !task.phase.Fetching?
    ensures Tidy(s.(tasks := s.tasks + [task]))
  {
    var t := s.(tasks := s.tasks + [task]);
    forall d | HasFetch(s, d) ensures HasFetch(t, d) {
      var i :| 0 <= i < |s.tasks| && s.tasks[i].chunk == d && !s.tasks[i].fromP2P;
      assert t.tasks[i] == s.tasks[i];
    }
  }

  lemma CollectTidy(s: Scheduler, c: nat, item: Reassembling.Reassembly)
    requires Tidy(s) && c in s.inFlight.vals
    ensures Tidy(s.(reassembly := s.reassembly[c := item]))
  {
    assert forall d :: HasFetch(s, d) ==> HasFetch(s.(reassembly := s.reassembly[c := item]), d);
  }

  lemma PieceTidy(s: Scheduler, c: nat, offset: nat, total: nat, data: Bytes)
    requires Tidy(s) && KnownPeers(s)
    ensures Tidy(HandlePiece(s, c, offset, total, data)) && KnownPeers(HandlePiece(s, c, offset, total, data))
  {
    hide Reassembling.Complete, Reassembling.Overruns, Reassembling.Assembled, Received, Backed, TasksWell;
    if c in s.inFlight.vals {
      var item := Received(s, c, offset, total, data);
      CollectTidy(s, c, item);
      AbandonTidy(s, c);
      if Reassembling.Complete(item) && !Reassembling.Overruns(item) {
        AppendTidy(Abandon(s, c), Task(c, true, PhaseFor(s.manifest, c, Reassembling.Assembled(item))));
      }
    }
  }

  lemma MoveTidy(s: Scheduler, i: nat, phase: Phase)
    requires Tidy(s) && Waits(s, i) && !phase.Fetching?
    ensures Tidy(Move(s, i, phase))
  {
    var t := Move(s, i, phase);
    forall d | HasFetch(s, d) ensures HasFetch(t, d) {
      var j :| 0 <= j < |s.tasks| && s.tasks[j].chunk == d && !s.tasks[j].fromP2P;
      assert t.tasks[j].chunk == d && !t.tasks[j].fromP2P;
    }
  }

  lemma DropTidy(s: Scheduler, i: nat)
    requires Tidy(s) && Waits(s, i)
    ensures s.tasks[i].fromP2P ==> Tidy(Drop(s, i))
    ensures Tidy(Drop(s, i).(atOrigin := s.atOrigin - {s.tasks[i].chunk}))
  {
    var t := Drop(s, i);
    forall d | HasFetch(s, d) && (d != s.tasks[i].chunk || s.tasks[i].fromP2P) ensures HasFetch(t, d) {
      var j :| 0 <= j < |s.tasks| && s.tasks[j].chunk == d && !s.tasks[j].fromP2P;
      assert t.tasks[if j < i then j else j - 1] == s.tasks[j];
    }
    var u := t.(atOrigin := s.atOrigin - {s.tasks[i].chunk});
    assert forall d :: HasFetch(t, d) ==> HasFetch(u, d);
  }

  lemma StoredTidy(s: Scheduler, i: nat)
    requires Tidy(s)
    ensures Tidy(Stored(s, i))
  {
    if Waits(s, i) {
      MoveTidy(s, i, Settling);
      var t, u := Move(s, i, Settling), Stored(s, i);
      assert u.tasks == t.tasks || u == s;
      assert u != s ==> forall d :: HasFetch(t, d) ==> HasFetch(u, d);
    }
  }

  lemma VerifiedTidy(s: Scheduler, i: nat, hash: Bytes -> Digest)
    requires Tidy(s)
    ensures Tidy(Verified(s, i, hash))
  {
    if Waits(s, i) {
      OriginTidy(s, s.tasks[i].chunk);
      MoveTidy(DispatchOrigin(s, s.tasks[i].chunk), i, Settling);
      if s.tasks[i].phase.Verifying? {
        MoveTidy(s, i, Storing(s.tasks[i].phase.data));
      }
    }
  }

  ghost predicate Neat(s: Scheduler) {
    Tidy(s) && KnownPeers(s)
  }

  lemma WaitTidy(s: Scheduler, i: nat, data: Bytes)
    requires Neat(s)
    ensures Neat(Fetched(s, i, data)) && Neat(Rejected(s, i)) && Neat(Resumed(s, i))
  {
    hide Tidy;
    if Waits(s, i) {
      MoveTidy(s, i, PhaseFor(s.manifest, s.tasks[i].chunk, data));
      MoveTidy(s, i, Settling);
      DropTidy(s, i);
    }
  }

  lemma StoringLeaves(s: Scheduler, i: nat)
    ensures var t := Stored(s, i);
      t.inFlight == s.inFlight && t.peers == s.peers && t.choked == s.choked && t.manifest == s.manifest
  {
    hide Full;
  }

  lemma DataTidy(s: Scheduler, i: nat, hash: Bytes -> Digest)
    requires Neat(s)
    ensures Neat(Verified(s, i, hash)) && Neat(Stored(s, i))
  {
    hide Tidy, Verified, Stored;
    VerifiedTidy(s, i, hash);
    StoredTidy(s, i);
    VerifyingLeaves(s, i, hash);
    StoringLeaves(s, i);
  }

  lemma SharedLeaves(s: Scheduler, p: PeerId, c: nat)
    ensures MarkShared(s, p, c) == s.(peers := MarkShared(s, p, c).peers)
    ensures s.peers.vals.Keys <= MarkShared(s, p, c).peers.vals.Keys
  {
  }

  lemma MarkedLeaves(s: Scheduler, p: PeerId, c: nat)
    ensures Marked(s, p, c) == s.(peers := Marked(s, p, c).peers)
    ensures s.peers.vals.Keys <= Marked(s, p, c).peers.vals.Keys
  {
  }

  /** Starting, or recording what a peer said, leaves the requests and the data alone. */
  lemma PeersLeave(s: Scheduler, input: Input, hash: Bytes -> Digest)
    requires ConcernsPeers(input.event)
    ensures var t := Before(s, input, hash);
      && t.manifest == s.manifest && t.have == s.have && t.store == s.store && t.log == s.log
      && t.inFlight == s.inFlight && t.reassembly == s.reassembly && t.atOrigin == s.atOrigin && t.tasks == s.tasks
      && s.peers.vals.Keys <= t.peers.vals.Keys
      && (!input.event.Started? ==> t.running == s.running)
  {
    hide Marked, MarkShared, HandlePiece, Fetched, Verified, Stored, Rejected, Resumed, Requeue, ScheduleChunk;
    if input.event.SharedHave? {
      SharedLeaves(s, input.event.peer, input.event.chunk);
    }
    if input.event.GotHave? {
      MarkedLeaves(s, input.event.peer, input.event.chunk);
    }
  }

  lemma PeersTidy(s: Scheduler, input: Input, hash: Bytes -> Digest)
    requires Neat(s)
    requires ConcernsPeers(input.event)
    ensures Neat(Before(s, input, hash))
  {
    hide Before;
    PeersLeave(s, input, hash);
    ForgetNothing(s, Before(s, input, hash));
  }

  lemma BeforeTidy(s: Scheduler, input: Input, hash: Bytes -> Digest)
    requires Neat(s)
    ensures Neat(Before(s, input, hash))
  {
    hide Tidy, ScheduleChunk, Requeue, HandlePiece, Fetched, Rejected, Resumed, Verified, Stored;
    match input.event
    case Stopped => StopTidy(s);
    case LostPeer(p) => RemovedTidy(s, p, input.sends);
    case TimedOut(c) =>
      if c in s.inFlight.vals {
        TimeoutTidy(s, c, input.sends);
      }
    case GotPiece(c, offset, total, data) => PieceTidy(s, c, offset, total, data);
    case FetchResolved(i, data) => WaitTidy(s, i, data);
    case VerifyResolved(i) => DataTidy(s, i, hash);
    case PutResolved(i) => DataTidy(s, i, hash);
    case AwaitRejected(i) => WaitTidy(s, i, []);
    case Continued(i) => WaitTidy(s, i, []);
    case _ => PeersTidy(s, input, hash);
  }

  lemma GrowsKnown(s: Scheduler, t: Scheduler)
    requires Grows(s, t) && KnownPeers(s)
    ensures KnownPeers(t)
  {
  }

  lemma ScheduleNextKnown(s: Scheduler, sends: Sends)
    requires KnownPeers(s)
    ensures KnownPeers(ScheduleNext(s, sends))
  {
    hide Grows, Pass;
    PassGrows(s, sends);
    GrowsKnown(s, Pass(s, sends));
  }

  lemma StepTidy(s: Scheduler, input: Input, hash: Bytes -> Digest)
    requires Neat(s)
    ensures Neat(Step(s, input, hash))
  {
    hide Tidy, KnownPeers, Before, Step, Schedules, ScheduleNext;
    StepSplits(s, input, hash);
    BeforeTidy(s, input, hash);
    ScheduleNextTidy(Before(s, input, hash), input.sends);
    ScheduleNextKnown(Before(s, input, hash), input.sends);
  }

  // ---------------------------------------------------------------- runs

  ghost predicate Safe(s: Scheduler, hash: Bytes -> Digest) {
    Sound(s, hash) && Neat(s)
  }

  lemma NeatInRange(s: Scheduler)
    requires Neat(s)
    ensures TasksInRange(s)
  {
  }

  lemma QuietSound(s: Scheduler, t: Scheduler, hash: Bytes -> Digest)
    requires Quiet(s, t) && Sound(s, hash)
    ensures Sound(t, hash)
  {
  }

  /** What one event may do to the possessed chunks and the store. */
  lemma StepSafe(s: Scheduler, input: Input, hash: Bytes -> Digest)
    requires Safe(s, hash)
    ensures Safe(Step(s, input, hash), hash)
    ensures s.have <= Step(s, input, hash).have
    ensures Step(s, input, hash).manifest == s.manifest
  {
    hide Sound, Neat, Before, Schedules;
    StepTidy(s, input, hash);
    NeatInRange(s);
    match input.event
    case VerifyResolved(i) => VerifiedSound(s, i, hash);
    case PutResolved(i) => StoredSound(s, i, hash);
    case _ =>
      StepQuiet(s, input, hash);
      QuietSound(s, Step(s, input, hash), hash);
  }

  /**
   * Agreement. At every suspension point of every interleaving, each set bit has bytes with the
   * manifest's hash in the store, each HAVE was sent for a set bit, no bit was ever cleared, at
   * most eight requests are in flight, each to a known peer and with at most two retries, and
   * blocks are collected only for chunks in flight.
   */
  lemma {:induction false} RunSafe(s: Scheduler, inputs: seq<Input>, hash: Bytes -> Digest)
    requires Safe(s, hash)
    ensures Safe(Run(s, inputs, hash), hash)
    ensures s.have <= Run(s, inputs, hash).have
    ensures Run(s, inputs, hash).manifest == s.manifest
  {
    hide Safe, Step;
    if inputs == [] {
    } else {
      RunSafe(s, inputs[..|inputs| - 1], hash);
      StepSafe(Run(s, inputs[..|inputs| - 1], hash), inputs[|inputs| - 1], hash);
    }
  }
}
