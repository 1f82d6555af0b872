/** An atomic run is bounded by its potential. */
module SchedulerPotential {
  import opened Bitfields
  import opened Bytes
  import opened OrderedMaps
  import opened SchedulerModel
  import opened SchedulerSafety
  import opened SchedulerLiveness
  import opened SchedulerAtomic
  import opened SchedulerExclusion
  import Reassembling

  // ---------------------------------------------------------------- sums over the chunks

  function CostBelow(s: Scheduler, n: nat): int {
    if n == 0 then 0 else CostBelow(s, n - 1) + Cost(s, n - 1)
  }

  function Potential(s: Scheduler): int {
    CostBelow(s, s.manifest.total)
  }

  lemma {:induction false} CostsMove(s: Scheduler, t: Scheduler, n: nat, c: nat, d: int)
    requires forall x: nat :: x != c ==> Cost(t, x) <= Cost(s, x)
    requires Cost(t, c) <= Cost(s, c) + d
    ensures CostBelow(t, n) <= CostBelow(s, n) + if c < n then d else 0
  {
    hide Cost;
    if n == 0 {
    } else {
      CostsMove(s, t, n - 1, c, d);
    }
  }

  function Under(cs: set<nat>, n: nat): set<nat> {
    set c | c in cs && c < n
  }

  /** Chunks that became cheaper lower the sum by one each. */
  lemma {:induction false} CostsFall(s: Scheduler, t: Scheduler, fell: set<nat>, n: nat)
    requires NoDearer(s, t) && forall x :: x in fell ==> Cost(t, x) < Cost(s, x)
    ensures CostBelow(t, n) + |Under(fell, n)| <= CostBelow(s, n)
  {
    if n == 0 {
    } else {
      CostsFall(s, t, fell, n - 1);
      var below, fewer := Under(fell, n), Under(fell, n - 1);
      assert below == if n - 1 in fell then fewer + {n - 1} else fewer;
      assert n - 1 !in fewer;
    }
  }

  lemma {:induction false} CostsPositive(s: Scheduler, n: nat)
    requires Bounded(s)
    ensures CostBelow(s, n) >= 0
    ensures CostBelow(s, n) == 0 <==> forall c: nat :: c < n ==> c in s.have
  {
    if n == 0 {
    } else {
      CostsPositive(s, n - 1);
    }
  }

  lemma {:induction false} CostsAtRest(s: Scheduler, n: nat)
    requires forall c: nat :: !IsOutstanding(s, c)
    ensures CostBelow(s, n) == 5 * |MissingBelow(s.have, n)|
  {
    if n == 0 {
    } else {
      CostsAtRest(s, n - 1);
      assert !IsOutstanding(s, n - 1);
    }
  }

  // ---------------------------------------------------------------- one atomic step

  /** The state before the step calls `scheduleNext`, if it does. */
  function AtomicBefore(s: Scheduler, input: AtomicInput, hash: Bytes -> Digest): Scheduler {
    match input.event
    case Sync(event) => if IsSync(event) then Before(s, Input(event, input.sends), hash) else s
    case Piece(c, offset, total, data) =>
      if !Finishes(s, c, offset, total, data) || OverrunningPiece(s, c, offset, total, data) then
        HandlePiece(s, c, offset, total, data)
      else Delivered(s, c, Reassembling.Assembled(Received(s, c, offset, total, data)), hash)
    case FetchDone(i, data) => if Waits(s, i) then Answered(s, i, data, hash) else s
    case FetchFailed(i) =>
      if Waits(s, i) then Drop(s, i).(atOrigin := s.atOrigin - {s.tasks[i].chunk}) else s
  }

  predicate AtomicSchedules(s: Scheduler, event: Atomic) {
    match event
    case Sync(e) => IsSync(e) && Schedules(s, e)
    case Piece(c, offset, total, data) =>
      s.running && Finishes(s, c, offset, total, data) && !OverrunningPiece(s, c, offset, total, data)
    case FetchDone(i, _) => s.running && Waits(s, i)
    case FetchFailed(i) => s.running && Waits(s, i)
  }

  lemma DeliveredManifest(s: Scheduler, c: nat, buffer: Bytes, hash: Bytes -> Digest)
    ensures Delivered(s, c, buffer, hash).manifest == s.manifest
    ensures Delivered(s, c, buffer, hash).running == s.running
  {
  }

  lemma PieceSplits(s: Scheduler, c: nat, offset: nat, total: nat, data: Bytes, sends: Sends, hash: Bytes -> Digest)
    requires Finishes(s, c, offset, total, data) && !OverrunningPiece(s, c, offset, total, data)
    ensures AtomicStep(s, AtomicInput(Piece(c, offset, total, data), sends), hash) ==
      ScheduleIfRunning(Delivered(s, c, Reassembling.Assembled(Received(s, c, offset, total, data)), hash), sends)
    ensures Delivered(s, c, Reassembling.Assembled(Received(s, c, offset, total, data)), hash).running == s.running
  {
    hide Finish, ScheduleIfRunning, Resumed, Stored, Verified, Delivered, Reassembling.Assembled, Received;
    var buffer := Reassembling.Assembled(Received(s, c, offset, total, data));
    var t := Abandon(s, c).(tasks := s.tasks + [Task(c, true, PhaseFor(s.manifest, c, buffer))]);
    assert HandlePiece(s, c, offset, total, data) == t;
    FinishShape(t, |s.tasks|, sends, hash);
    DeliveredShape(s, c, buffer, hash);
    DeliveredManifest(s, c, buffer, hash);
  }

  lemma FetchSplits(s: Scheduler, i: nat, data: Bytes, sends: Sends, hash: Bytes -> Digest)
    requires Exclusive(s) && Waits(s, i)
    ensures AtomicStep(s, AtomicInput(FetchDone(i, data), sends), hash) ==
      ScheduleIfRunning(Answered(s, i, data, hash), sends)
    ensures AtomicStep(s, AtomicInput(FetchFailed(i), sends), hash) ==
      ScheduleIfRunning(Drop(s, i).(atOrigin := s.atOrigin - {s.tasks[i].chunk}), sends)
  {
    hide Finish, ScheduleIfRunning, Stored, Verified, Answered, Settled;
    FinishShape(Fetched(s, i, data), i, sends, hash);
    AnsweredShape(s, i, data, hash);
    SettledShape(Rejected(s, i), i, sends);
    var settled := s.tasks[i].(phase := Settling);
    assert s.tasks[i := settled][..i] + s.tasks[i := settled][i + 1..] == s.tasks[..i] + s.tasks[i + 1..];
  }

  lemma AnsweredManifest(s: Scheduler, i: nat, data: Bytes, hash: Bytes -> Digest)
    requires Waits(s, i)
    ensures Answered(s, i, data, hash).manifest == s.manifest
    ensures Answered(s, i, data, hash).running == s.running
  {
  }

  lemma PieceReturns(s: Scheduler, c: nat, offset: nat, total: nat, data: Bytes)
    requires !Finishes(s, c, offset, total, data) || OverrunningPiece(s, c, offset, total, data)
    ensures HandlePiece(s, c, offset, total, data).tasks == s.tasks
  {
  }

  lemma AtomicSplits(s: Scheduler, input: AtomicInput, hash: Bytes -> Digest)
    requires Exclusive(s)
    ensures AtomicStep(s, input, hash) ==
      if AtomicSchedules(s, input.event) then ScheduleNext(AtomicBefore(s, input, hash), input.sends)
      else AtomicBefore(s, input, hash)
  {
    hide Finish, Before, ScheduleNext, Step, Schedules, Finishes, Delivered, Answered;
    match input.event
    case Sync(event) =>
      if IsSync(event) {
        StepSplits(s, Input(event, input.sends), hash);
      }
    case Piece(c, offset, total, data) =>
      if Finishes(s, c, offset, total, data) && !OverrunningPiece(s, c, offset, total, data) {
        PieceSplits(s, c, offset, total, data, input.sends, hash);
      } else {
        PieceReturns(s, c, offset, total, data);
      }
    case FetchDone(i, data) =>
      if Waits(s, i) {
        FetchSplits(s, i, data, input.sends, hash);
        AnsweredManifest(s, i, data, hash);
      }
    case FetchFailed(i) =>
      if Waits(s, i) {
        FetchSplits(s, i, [], input.sends, hash);
      }
  }

  /** How many timeouts, lost requests, chunks that arrive whole and authentic answers the event is. */
  ghost function Gains(s: Scheduler, event: Atomic, hash: Bytes -> Digest): nat {
    match event
    case Sync(TimedOut(c)) => if c in s.inFlight.vals then 1 else 0
    case Sync(LostPeer(p)) => Load(s, p)
    case Piece(c, offset, total, data) =>
      if Finishes(s, c, offset, total, data) && !OverrunningPiece(s, c, offset, total, data) && c in s.manifest.expected
      then 1 else 0
    case FetchDone(i, data) => if Waits(s, i) && Authentic(s.manifest, hash, s.tasks[i].chunk, data) then 1 else 0
    case _ => 0
  }

  /** The origin fails or lies, a block overruns, or the manifest has no hash. */
  ghost predicate SetsBack(s: Scheduler, event: Atomic, hash: Bytes -> Digest) {
    match event
    case Piece(c, offset, total, data) =>
      && Finishes(s, c, offset, total, data)
      && (OverrunningPiece(s, c, offset, total, data) || c !in s.manifest.expected)
    case FetchDone(i, data) => Waits(s, i) && !Authentic(s.manifest, hash, s.tasks[i].chunk, data)
    case FetchFailed(i) => Waits(s, i)
    case _ => false
  }

  ghost function Toll(s: Scheduler, event: Atomic, hash: Bytes -> Digest): int {
    (if SetsBack(s, event, hash) then 4 else 0) - (Gains(s, event, hash) as int)
  }

  /** Only the cost of `d` may rise, and by at most `toll`. */
  ghost predicate Pays(s: Scheduler, t: Scheduler, d: nat, toll: int) {
    && t.manifest == s.manifest
    && (forall x: nat :: x != d ==> Cost(t, x) <= Cost(s, x))
    && Cost(t, d) <= Cost(s, d) + toll
    && (toll < 0 ==> d < s.manifest.total)
  }

  lemma SameRequestsPay(s: Scheduler, t: Scheduler, d: nat)
    requires Exclusive(s)
    requires t.manifest == s.manifest && t.have == s.have && t.tasks == s.tasks
    requires t.inFlight == s.inFlight && t.atOrigin == s.atOrigin
    ensures Exclusive(t) && Pays(s, t, d, 0)
  {
  }

  lemma PeersPay(s: Scheduler, input: Input, hash: Bytes -> Digest)
    requires Exclusive(s)
    requires ConcernsPeers(input.event)
    ensures Exclusive(Before(s, input, hash)) && Pays(s, Before(s, input, hash), 0, 0)
  {
    hide Exclusive, Pays, Before;
    PeersLeave(s, input, hash);
    SameRequestsPay(s, Before(s, input, hash), 0);
  }

  lemma RemovePays(s: Scheduler, p: PeerId, sends: Sends)
    requires Neat(s) && Exclusive(s)
    ensures var t := Requeue(Forget(s, p), s.inFlight, p, |s.inFlight.keys|, sends);
      Exclusive(t) && t.manifest == s.manifest && Potential(t) <= Potential(s) - Load(s, p)
  {
    hide Exclusive, Cost, Requeue;
    RemoveExclusive(s, p, sends);
    var t := Requeue(Forget(s, p), s.inFlight, p, |s.inFlight.keys|, sends);
    CostsFall(s, t, Carried(s, p), s.manifest.total);
    assert Under(Carried(s, p), s.manifest.total) == Carried(s, p);
  }

  lemma RetriesBounded(s: Scheduler, c: nat)
    requires Neat(s) && c in s.inFlight.vals
    ensures c < s.manifest.total && s.inFlight.vals[c].retries <= REQUEST_RETRIES
  {
  }

  lemma TimeoutPays(s: Scheduler, c: nat, sends: Sends)
    requires Neat(s) && Exclusive(s) && c in s.inFlight.vals
    ensures var t := ScheduleChunk(Abandon(s, c), c, s.inFlight.vals[c].retries + 1, sends);
      Exclusive(t) && Pays(s, t, c, -1)
  {
    hide Exclusive, ScheduleChunk, Cost;
    RetriesBounded(s, c);
    ReplaceExclusive(s, c, sends);
  }

  lemma PaysTotal(s: Scheduler, t: Scheduler, d: nat, toll: int)
    requires Pays(s, t, d, toll)
    ensures t.manifest == s.manifest && Potential(t) <= Potential(s) + toll
  {
    CostsMove(s, t, s.manifest.total, d, toll);
  }

  lemma SyncPays(s: Scheduler, input: Input, hash: Bytes -> Digest)
    requires Neat(s) && Exclusive(s) && IsSync(input.event)
    ensures var t := Before(s, input, hash);
      Exclusive(t) && t.manifest == s.manifest && Potential(t) <= Potential(s) - Gains(s, Sync(input.event), hash)
  {
    hide Exclusive, ScheduleChunk, Requeue, Cost, Pays, Neat, Potential, Load;
    if input.event.LostPeer? {
      RemovePays(s, input.event.peer, input.sends);
    } else if input.event.TimedOut? {
      var c := input.event.chunk;
      if c in s.inFlight.vals {
        TimeoutPays(s, c, input.sends);
        PaysTotal(s, Before(s, input, hash), c, -1);
      }
    } else {
      PeersPay(s, input, hash);
      PaysTotal(s, Before(s, input, hash), 0, 0);
    }
  }

  lemma AbandonPays(s: Scheduler, c: nat)
    requires Neat(s) && Exclusive(s) && c in s.inFlight.vals
    ensures Exclusive(Abandon(s, c)) && Pays(s, Abandon(s, c), c, 4)
  {
    hide Neat, Outstanding, OneFetchEach;
    RetriesBounded(s, c);
    AbandonExclusive(s, c);
  }

  lemma DeliveredPays(s: Scheduler, c: nat, buffer: Bytes, hash: Bytes -> Digest)
    requires Neat(s) && Exclusive(s) && c in s.inFlight.vals
    ensures Exclusive(Delivered(s, c, buffer, hash))
    ensures Pays(s, Delivered(s, c, buffer, hash), c, if c in s.manifest.expected then -1 else 4)
  {
    hide Exclusive, Cost, Delivered;
    DeliveredExclusive(s, c, buffer, hash);
    DeliveredManifest(s, c, buffer, hash);
  }

  lemma PiecePays(s: Scheduler, input: AtomicInput, hash: Bytes -> Digest)
    requires Neat(s) && Exclusive(s) && input.event.Piece?
    ensures var t := AtomicBefore(s, input, hash);
      && Exclusive(t)
      && Pays(s, t, input.event.chunk, Toll(s, input.event, hash))
  {
    hide Reassembling.Complete, Reassembling.Overruns, Reassembling.Assembled, Received, Delivered, Exclusive,
      Pays, Abandon, Neat;
    var Piece(c, offset, total, data) := input.event;
    if c in s.inFlight.vals {
      var item := Received(s, c, offset, total, data);
      if !Reassembling.Complete(item) {
        SameRequestsPay(s, AtomicBefore(s, input, hash), c);
      } else if Reassembling.Overruns(item) {
        AbandonPays(s, c);
      } else {
        DeliveredPays(s, c, Reassembling.Assembled(item), hash);
      }
    } else {
      SameRequestsPay(s, s, c);
    }
  }

  lemma FetchPays(s: Scheduler, input: AtomicInput, i: nat, hash: Bytes -> Digest)
    requires Neat(s) && Exclusive(s) && Waits(s, i)
    requires input.event == FetchFailed(i) || (input.event.FetchDone? && input.event.task == i)
    ensures var t := AtomicBefore(s, input, hash);
      && Exclusive(t)
      && Pays(s, t, s.tasks[i].chunk, Toll(s, input.event, hash))
  {
    hide Exclusive, Cost;
    DropExclusive(s, i);
    if input.event.FetchDone? {
      AnsweredExclusive(s, i, input.event.data, hash);
    }
  }

  lemma BeforePays(s: Scheduler, input: AtomicInput, hash: Bytes -> Digest)
    requires Neat(s) && Exclusive(s)
    ensures var t := AtomicBefore(s, input, hash);
      Exclusive(t) && t.manifest == s.manifest && Potential(t) <= Potential(s) + Toll(s, input.event, hash)
  {
    hide Exclusive, Neat, Cost, Pays, Potential, Before, Finishes, OverrunningPiece, HandlePiece, Answered, Delivered;
    var t := AtomicBefore(s, input, hash);
    match input.event
    case Sync(event) =>
      if IsSync(event) {
        SyncPays(s, Input(event, input.sends), hash);
      }
    case Piece(c, _, _, _) =>
      PiecePays(s, input, hash);
      PaysTotal(s, t, c, Toll(s, input.event, hash));
    case FetchDone(i, _) =>
      if Waits(s, i) {
        FetchPays(s, input, i, hash);
        PaysTotal(s, t, s.tasks[i].chunk, Toll(s, input.event, hash));
      }
    case FetchFailed(i) =>
      if Waits(s, i) {
        FetchPays(s, input, i, hash);
        PaysTotal(s, t, s.tasks[i].chunk, Toll(s, input.event, hash));
      }
  }

  /**
   * Each atomic step keeps every chunk in one place, and pays: the potential falls on each
   * timeout, lost request, delivered or rejected chunk and authentic answer, rises by at most
   * four on a setback, and never rises otherwise.
   */
  lemma StepPays(s: Scheduler, input: AtomicInput, hash: Bytes -> Digest)
    requires Neat(s) && Exclusive(s)
    ensures var t := AtomicStep(s, input, hash);
      && Exclusive(t) && t.manifest == s.manifest
      && Potential(t) <= Potential(s) + Toll(s, input.event, hash)
  {
    hide Exclusive, Neat, Toll, AtomicBefore, AtomicSchedules, AtomicStep, ScheduleNext;
    BeforePays(s, input, hash);
    var b := AtomicBefore(s, input, hash);
    AtomicSplits(s, input, hash);
    ScheduleNextExclusive(b, input.sends);
    ScheduleNextQuiet(b, input.sends);
    CostsMove(b, ScheduleNext(b, input.sends), s.manifest.total, 0, 0);
  }

  // ---------------------------------------------------------------- whole runs

  function Initial(manifest: Manifest, have: set<nat>, store: map<nat, Bytes>): Scheduler {
    Scheduler(manifest, false, have, Empty(), map[], Empty(), map[], {}, [], store, [])
  }

  /** The bits that `startDownload` sets are of stored chunks that have the manifest's hashes. */
  ghost predicate ValidStore(manifest: Manifest, have: set<nat>, store: map<nat, Bytes>, hash: Bytes -> Digest) {
    forall c: nat :: c in have ==> c < manifest.total && c in store && Authentic(manifest, hash, c, store[c])
  }

  lemma InitialReady(manifest: Manifest, have: set<nat>, store: map<nat, Bytes>, hash: Bytes -> Digest)
    requires ValidStore(manifest, have, store, hash)
    ensures var s := Initial(manifest, have, store); Safe(s, hash) && Exclusive(s) && !Stalled(s)
    ensures Potential(Initial(manifest, have, store)) == 5 * |MissingBelow(have, manifest.total)|
  {
    CostsAtRest(Initial(manifest, have, store), manifest.total);
  }

  ghost function Advanced(s: Scheduler, inputs: seq<AtomicInput>, hash: Bytes -> Digest): nat {
    if inputs == [] then 0
    else
      var front, last := inputs[..|inputs| - 1], inputs[|inputs| - 1];
      Advanced(s, front, hash) + Gains(AtomicRun(s, front, hash), last.event, hash)
  }

  ghost function SetBack(s: Scheduler, inputs: seq<AtomicInput>, hash: Bytes -> Digest): nat {
    if inputs == [] then 0
    else
      var front, last := inputs[..|inputs| - 1], inputs[|inputs| - 1];
      SetBack(s, front, hash) + if SetsBack(AtomicRun(s, front, hash), last.event, hash) then 1 else 0
  }

  lemma AtomicRunSafe(s: Scheduler, inputs: seq<AtomicInput>, hash: Bytes -> Digest)
    requires Safe(s, hash)
    ensures var t := AtomicRun(s, inputs, hash);
      Safe(t, hash) && s.have <= t.have && t.manifest == s.manifest
  {
    hide Safe;
    AtomicRunIsRun(s, inputs, hash);
    RunSafe(s, ExpandAll(s, inputs, hash), hash);
  }

  lemma {:induction false} RunPays(s: Scheduler, inputs: seq<AtomicInput>, hash: Bytes -> Digest)
    requires Safe(s, hash) && Exclusive(s)
    ensures var t := AtomicRun(s, inputs, hash);
      && Exclusive(t)
      && Potential(t) + Advanced(s, inputs, hash) <= Potential(s) + 4 * SetBack(s, inputs, hash)
  {
    hide Sound, Neat, Exclusive, Potential, AtomicStep, Gains, SetsBack;
    if inputs == [] {
    } else {
      var front, last := inputs[..|inputs| - 1], inputs[|inputs| - 1];
      RunPays(s, front, hash);
      AtomicRunSafe(s, front, hash);
      StepPays(AtomicRun(s, front, hash), last, hash);
    }
  }

  lemma PotentialZero(s: Scheduler)
    requires Neat(s)
    ensures Potential(s) >= 0
    ensures Potential(s) == 0 <==> Complete(s)
  {
    CostsPositive(s, s.manifest.total);
  }

  lemma SafeNeat(s: Scheduler, hash: Bytes -> Digest)
    requires Safe(s, hash)
    ensures Neat(s) && Sound(s, hash)
  {
  }

  /**
   * Never fail. In a run with no stop, the timeouts, lost requests, delivered or rejected chunks
   * and authentic answers number at most five for each chunk that was missing, plus four for
   * each setback; and once they number that many, the download is complete.
   */
  lemma NeverFails(manifest: Manifest, have: set<nat>, store: map<nat, Bytes>, inputs: seq<AtomicInput>,
                   hash: Bytes -> Digest)
    requires ValidStore(manifest, have, store, hash)
    ensures var s := Initial(manifest, have, store);
      var bound := 5 * |MissingBelow(have, manifest.total)| + 4 * SetBack(s, inputs, hash);
      && Advanced(s, inputs, hash) <= bound
      && (Advanced(s, inputs, hash) == bound ==> Complete(AtomicRun(s, inputs, hash)))
  {
    hide Safe, Exclusive, Potential;
    var s := Initial(manifest, have, store);
    InitialReady(manifest, have, store, hash);
    RunPays(s, inputs, hash);
    AtomicRunSafe(s, inputs, hash);
    SafeNeat(AtomicRun(s, inputs, hash), hash);
    PotentialZero(AtomicRun(s, inputs, hash));
  }

  /** A timeout of whatever is in flight lowers the potential. */
  lemma TimeoutLowers(s: Scheduler, c: nat, sends: Sends, hash: Bytes -> Digest)
    requires Neat(s) && Exclusive(s) && c in s.inFlight.vals
    ensures Potential(AtomicStep(s, AtomicInput(Sync(TimedOut(c)), sends), hash)) < Potential(s)
  {
    hide Neat, Exclusive, Potential, AtomicStep;
    StepPays(s, AtomicInput(Sync(TimedOut(c)), sends), hash);
  }

  /** So does an authentic answer to whatever was asked of the origin. */
  lemma AnswerLowers(s: Scheduler, i: nat, data: Bytes, sends: Sends, hash: Bytes -> Digest)
    requires Neat(s) && Exclusive(s) && Waits(s, i) && Authentic(s.manifest, hash, s.tasks[i].chunk, data)
    ensures Potential(AtomicStep(s, AtomicInput(FetchDone(i, data), sends), hash)) < Potential(s)
  {
    hide Neat, Exclusive, Potential, AtomicStep;
    StepPays(s, AtomicInput(FetchDone(i, data), sends), hash);
  }

  /** And so does the arrival of a whole chunk that was asked of a peer, authentic or not. */
  lemma ArrivalLowers(s: Scheduler, c: nat, offset: nat, total: nat, data: Bytes, sends: Sends, hash: Bytes -> Digest)
    requires Neat(s) && Exclusive(s) && c in s.manifest.expected
    requires Finishes(s, c, offset, total, data) && !OverrunningPiece(s, c, offset, total, data)
    ensures Potential(AtomicStep(s, AtomicInput(Piece(c, offset, total, data), sends), hash)) < Potential(s)
  {
    hide Neat, Exclusive, Potential, AtomicStep, Finishes, OverrunningPiece;
    StepPays(s, AtomicInput(Piece(c, offset, total, data), sends), hash);
  }

  /** No piece of the run ends a request with a block past the end. */
  ghost predicate NoOverruns(s: Scheduler, inputs: seq<AtomicInput>, hash: Bytes -> Digest) {
    forall k :: 0 <= k < |inputs| && inputs[k].event.Piece? ==>
      var Piece(c, offset, total, data) := inputs[k].event;
      !OverrunningPiece(AtomicRun(s, inputs[..k], hash), c, offset, total, data)
  }

  lemma AtomicStepBusy(s: Scheduler, input: AtomicInput, hash: Bytes -> Digest)
    requires Safe(s, hash) && Exclusive(s) && !Stalled(s)
    requires input.event.Piece? ==>
      !OverrunningPiece(s, input.event.chunk, input.event.offset, input.event.total, input.event.data)
    ensures !Stalled(AtomicStep(s, input, hash))
  {
    hide Stalled, Safe, AtomicStep, Step, OverrunningPiece, HandlePiece;
    var inputs := Expand(s, input);
    forall k | 0 <= k < |inputs| ensures !LastHopeFails(Run(s, inputs[..k], hash), inputs[k].event) {
      if inputs[k].event.AwaitRejected? {
        assert inputs[..k] == [];
      } else if inputs[k].event.GotPiece? {
        assert inputs[..k] == [];
      }
    }
    RunNeverStalls(s, inputs, hash);
    ExpandRuns(s, input, hash);
  }

  /** With well-formed pieces, a run is never stuck: it is finished, stopped, or waits for something. */
  lemma {:induction false} AtomicRunNeverStalls(s: Scheduler, inputs: seq<AtomicInput>, hash: Bytes -> Digest)
    requires Safe(s, hash) && Exclusive(s) && !Stalled(s) && NoOverruns(s, inputs, hash)
    ensures !Stalled(AtomicRun(s, inputs, hash))
  {
    hide Stalled, Safe, Exclusive, AtomicStep, OverrunningPiece;
    if inputs == [] {
    } else {
      var n := |inputs| - 1;
      forall k | 0 <= k < n && inputs[..n][k].event.Piece?
        ensures var Piece(c, offset, total, data) := inputs[..n][k].event;
          !OverrunningPiece(AtomicRun(s, inputs[..n][..k], hash), c, offset, total, data)
      {
        assert inputs[..n][..k] == inputs[..k];
      }
      AtomicRunNeverStalls(s, inputs[..n], hash);
      AtomicRunSafe(s, inputs[..n], hash);
      RunPays(s, inputs[..n], hash);
      AtomicStepBusy(AtomicRun(s, inputs[..n], hash), inputs[n], hash);
    }
  }
}
