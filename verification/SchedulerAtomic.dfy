/**
 * The scheduler when a chunk is hashed, stored and settled in one step. Such a step is a
 * sequence of steps of the interleaved scheduler, with nothing in between.
 */
module SchedulerAtomic {
  import opened Bitfields
  import opened Bytes
  import opened SchedulerModel
  import opened SchedulerSafety
  import Reassembling

  datatype Atomic =
    | Sync(event: Event)
    | Piece(chunk: nat, offset: nat, total: nat, data: Bytes)
    | FetchDone(task: nat, data: Bytes)
    | FetchFailed(task: nat)

  /** The events that a run from `start` to `stop` consists of, apart from arriving data. */
  predicate IsSync(event: Event) {
    ConcernsPeers(event) || event.LostPeer? || event.TimedOut?
  }

  datatype AtomicInput = AtomicInput(event: Atomic, sends: Sends)

  function Finish(s: Scheduler, i: nat, sends: Sends, hash: Bytes -> Digest): Scheduler {
    Settled(Stored(Verified(s, i, hash), i), i, sends)
  }

  function AtomicStep(s: Scheduler, input: AtomicInput, hash: Bytes -> Digest): Scheduler {
    match input.event
    case Sync(event) => if IsSync(event) then Step(s, Input(event, input.sends), hash) else s
    case Piece(c, offset, total, data) =>
      var t := HandlePiece(s, c, offset, total, data);
      if |t.tasks| > |s.tasks| then Finish(t, |s.tasks|, input.sends, hash) else t
    case FetchDone(i, data) =>
      if Waits(s, i) && s.tasks[i].phase.Fetching? then Finish(Fetched(s, i, data), i, input.sends, hash) else s
    case FetchFailed(i) =>
      if Waits(s, i) && s.tasks[i].phase.Fetching? then Settled(Rejected(s, i), i, input.sends) else s
  }

  function AtomicRun(s: Scheduler, inputs: seq<AtomicInput>, hash: Bytes -> Digest): Scheduler {
    if inputs == [] then s
    else AtomicStep(AtomicRun(s, inputs[..|inputs| - 1], hash), inputs[|inputs| - 1], hash)
  }

  // ---------------------------------------------------------------- an atomic run is an interleaving

  function Finishing(i: nat, sends: Sends): seq<Input> {
    [Input(VerifyResolved(i), sends), Input(PutResolved(i), sends), Input(Continued(i), sends)]
  }

  /** The interleaved steps that make up one atomic step. */
  function Expand(s: Scheduler, input: AtomicInput): seq<Input> {
    var sends := input.sends;
    match input.event
    case Sync(event) => if IsSync(event) then [Input(event, sends)] else []
    case Piece(c, offset, total, data) =>
      [Input(GotPiece(c, offset, total, data), sends)] +
      if |HandlePiece(s, c, offset, total, data).tasks| > |s.tasks| then Finishing(|s.tasks|, sends) else []
    case FetchDone(i, data) =>
      if Waits(s, i) && s.tasks[i].phase.Fetching? then [Input(FetchResolved(i, data), sends)] + Finishing(i, sends)
      else []
    case FetchFailed(i) =>
      if Waits(s, i) && s.tasks[i].phase.Fetching? then [Input(AwaitRejected(i), sends), Input(Continued(i), sends)]
      else []
  }

  function ExpandAll(s: Scheduler, inputs: seq<AtomicInput>, hash: Bytes -> Digest): seq<Input> {
    if inputs == [] then []
    else
      var front := inputs[..|inputs| - 1];
      ExpandAll(s, front, hash) + Expand(AtomicRun(s, front, hash), inputs[|inputs| - 1])
  }

  lemma {:induction false} RunAppend(s: Scheduler, a: seq<Input>, b: seq<Input>, hash: Bytes -> Digest)
    ensures Run(s, a + b, hash) == Run(Run(s, a, hash), b, hash)
  {
    hide Step;
    if b == [] {
      assert a + b == a;
    } else {
      var n := |b| - 1;
      assert (a + b)[..|a + b| - 1] == a + b[..n];
      RunAppend(s, a, b[..n], hash);
    }
  }

  lemma RunOne(s: Scheduler, input: Input, hash: Bytes -> Digest)
    ensures Run(s, [input], hash) == Step(s, input, hash)
  {
    hide Step;
    assert [input][..0] == [];
  }

  lemma StepResumes(s: Scheduler, input: Input, hash: Bytes -> Digest)
    ensures input.event.VerifyResolved? ==> Step(s, input, hash) == Verified(s, input.event.task, hash)
    ensures input.event.PutResolved? ==> Step(s, input, hash) == Stored(s, input.event.task)
    ensures input.event.AwaitRejected? ==> Step(s, input, hash) == Rejected(s, input.event.task)
    ensures input.event.Continued? ==> Step(s, input, hash) == Settled(s, input.event.task, input.sends)
  {
  }

  lemma RunFinishing(s: Scheduler, i: nat, sends: Sends, hash: Bytes -> Digest)
    ensures Run(s, Finishing(i, sends), hash) == Finish(s, i, sends, hash)
  {
    hide Run, Step, Verified, Stored, Settled;
    var a, b, c := Input(VerifyResolved(i), sends), Input(PutResolved(i), sends), Input(Continued(i), sends);
    assert Finishing(i, sends) == ([a] + [b]) + [c];
    RunAppend(s, [a] + [b], [c], hash);
    RunAppend(s, [a], [b], hash);
    RunOne(s, a, hash);
    RunOne(Verified(s, i, hash), b, hash);
    RunOne(Stored(Verified(s, i, hash), i), c, hash);
    StepResumes(s, a, hash);
    StepResumes(Verified(s, i, hash), b, hash);
    StepResumes(Stored(Verified(s, i, hash), i), c, hash);
  }

  lemma StepIsPiece(s: Scheduler, input: Input, hash: Bytes -> Digest)
    requires input.event.GotPiece?
    ensures Step(s, input, hash) ==
      HandlePiece(s, input.event.chunk, input.event.offset, input.event.total, input.event.data)
  {
  }

  lemma StepIsFetched(s: Scheduler, input: Input, hash: Bytes -> Digest)
    requires input.event.FetchResolved?
    ensures Step(s, input, hash) == Fetched(s, input.event.task, input.event.data)
  {
  }

  lemma ExpandRuns(s: Scheduler, input: AtomicInput, hash: Bytes -> Digest)
    ensures Run(s, Expand(s, input), hash) == AtomicStep(s, input, hash)
  {
    hide Step, Finish, Settled, Rejected, Fetched, HandlePiece, Finishing;
    var sends := input.sends;
    match input.event
    case Sync(event) => RunOne(s, Input(event, sends), hash);
    case Piece(c, offset, total, data) =>
      var first := Input(GotPiece(c, offset, total, data), sends);
      var t := HandlePiece(s, c, offset, total, data);
      StepIsPiece(s, first, hash);
      RunOne(s, first, hash);
      assert [first] + [] == [first];
      RunAppend(s, [first], Finishing(|s.tasks|, sends), hash);
      RunFinishing(t, |s.tasks|, sends, hash);
    case FetchDone(i, data) =>
      var first := Input(FetchResolved(i, data), sends);
      StepIsFetched(s, first, hash);
      RunOne(s, first, hash);
      RunAppend(s, [first], Finishing(i, sends), hash);
      RunFinishing(Fetched(s, i, data), i, sends, hash);
    case FetchFailed(i) =>
      var a, b := Input(AwaitRejected(i), sends), Input(Continued(i), sends);
      StepResumes(s, a, hash);
      StepResumes(Rejected(s, i), b, hash);
      assert [a, b] == [a] + [b];
      RunAppend(s, [a], [b], hash);
      RunOne(s, a, hash);
      RunOne(Rejected(s, i), b, hash);
  }

  /** Whatever holds after every interleaving holds after every atomic run. */
  lemma {:induction false} AtomicRunIsRun(s: Scheduler, inputs: seq<AtomicInput>, hash: Bytes -> Digest)
    ensures Run(s, ExpandAll(s, inputs, hash), hash) == AtomicRun(s, inputs, hash)
  {
    hide Step, AtomicStep, Expand;
    if inputs == [] {
    } else {
      var front, last := inputs[..|inputs| - 1], inputs[|inputs| - 1];
      AtomicRunIsRun(s, front, hash);
      RunAppend(s, ExpandAll(s, front, hash), Expand(AtomicRun(s, front, hash), last), hash);
      ExpandRuns(AtomicRun(s, front, hash), last, hash);
    }
  }

  // ---------------------------------------------------------------- what arriving data does

  /** The chunk's bytes are stored and reported. */
  function Took(s: Scheduler, c: nat, data: Bytes, fromP2P: bool): Scheduler {
    var t := s.(
      store := s.store[c := data],
      have := s.have + {c},
      log := s.log + [HaveSent(c), Completed(c, fromP2P, |data|)]);
    if Complete(t) then t.(log := t.log + [DownloadComplete]) else t
  }

  predicate Finishes(s: Scheduler, c: nat, offset: nat, total: nat, data: Bytes) {
    c in s.inFlight.vals && Reassembling.Complete(Received(s, c, offset, total, data))
  }

  /** The state before `scheduleNext` when the last block of a chunk arrives and fits. */
  function Delivered(s: Scheduler, c: nat, buffer: Bytes, hash: Bytes -> Digest): Scheduler {
    var t := Abandon(s, c);
    if c !in s.manifest.expected then t
    else if Authentic(s.manifest, hash, c, buffer) then Took(t, c, buffer, true)
    else DispatchOrigin(t, c)
  }

  /** The state before `scheduleNext` when the origin's answer is settled. */
  function Answered(s: Scheduler, i: nat, data: Bytes, hash: Bytes -> Digest): Scheduler
    requires Waits(s, i)
  {
    var c := s.tasks[i].chunk;
    var t := Drop(s, i).(atOrigin := s.atOrigin - {c});
    if Authentic(s.manifest, hash, c, data) then Took(t, c, data, false) else t
  }

  lemma SettledShape(s: Scheduler, i: nat, sends: Sends)
    requires Waits(s, i) && s.tasks[i].phase.Settling?
    ensures Settled(s, i, sends) == ScheduleIfRunning(Resumed(s, i), sends)
  {
  }

  lemma FinishShape(s: Scheduler, i: nat, sends: Sends, hash: Bytes -> Digest)
    requires Waits(s, i) && (s.tasks[i].phase.Verifying? || s.tasks[i].phase.Settling?)
    ensures Finish(s, i, sends, hash) == ScheduleIfRunning(Resumed(Stored(Verified(s, i, hash), i), i), sends)
  {
    hide ScheduleIfRunning, Resumed, Settled;
    var t := Stored(Verified(s, i, hash), i);
    SettledShape(t, i, sends);
  }

  lemma PassesBy(s: Scheduler, i: nat, hash: Bytes -> Digest)
    requires Waits(s, i) && s.tasks[i].phase.Settling?
    ensures Stored(Verified(s, i, hash), i) == s
  {
  }

  lemma LastDropped(s: Scheduler, task: Task)
    requires task.fromP2P && task.phase.Settling?
    ensures Resumed(s.(tasks := s.tasks + [task]), |s.tasks|) == s
  {
    assert (s.tasks + [task])[..|s.tasks|] + (s.tasks + [task])[|s.tasks| + 1..] == s.tasks;
  }

  lemma LastTaken(s: Scheduler, task: Task, hash: Bytes -> Digest)
    requires task.fromP2P && task.phase.Verifying? && Authentic(s.manifest, hash, task.chunk, task.phase.data)
    ensures var t := s.(tasks := s.tasks + [task]);
      Resumed(Stored(Verified(t, |s.tasks|, hash), |s.tasks|), |s.tasks|) == Took(s, task.chunk, task.phase.data, true)
  {
    hide Resumed, Full;
    var n := |s.tasks|;
    var t := s.(tasks := s.tasks + [task]);
    var storing, settled := task.(phase := Storing(task.phase.data)), task.(phase := Settling);
    assert (s.tasks + [task])[n := storing] == s.tasks + [storing];
    assert (s.tasks + [storing])[n := settled] == s.tasks + [settled];
    var u := Took(s, task.chunk, task.phase.data, true);
    LastDropped(u, settled);
  }

  lemma LastRejected(s: Scheduler, task: Task, hash: Bytes -> Digest)
    requires task.fromP2P && task.phase.Verifying? && !Authentic(s.manifest, hash, task.chunk, task.phase.data)
    ensures var t := s.(tasks := s.tasks + [task]);
      Resumed(Stored(Verified(t, |s.tasks|, hash), |s.tasks|), |s.tasks|) == DispatchOrigin(s, task.chunk)
  {
    var n := |s.tasks|;
    var fetch, settled := Task(task.chunk, false, Fetching), task.(phase := Settling);
    assert (s.tasks + [task])[n := settled] == s.tasks + [settled];
    assert (s.tasks + [settled])[..n] + (s.tasks + [settled])[n + 1..] == s.tasks;
    assert (s.tasks + [task] + [fetch])[n := settled] == s.tasks + [settled] + [fetch];
    assert (s.tasks + [settled] + [fetch])[..n] + (s.tasks + [settled] + [fetch])[n + 1..] == s.tasks + [fetch];
  }

  lemma DeliveredShape(s: Scheduler, c: nat, buffer: Bytes, hash: Bytes -> Digest)
    ensures var t := Abandon(s, c).(tasks := s.tasks + [Task(c, true, PhaseFor(s.manifest, c, buffer))]);
      Resumed(Stored(Verified(t, |s.tasks|, hash), |s.tasks|), |s.tasks|) == Delivered(s, c, buffer, hash)
  {
    hide Resumed, Stored, Verified, Took, DispatchOrigin;
    var n := |s.tasks|;
    var b := Abandon(s, c);
    var task := Task(c, true, PhaseFor(s.manifest, c, buffer));
    var t := b.(tasks := b.tasks + [task]);
    if c !in s.manifest.expected {
      PassesBy(t, n, hash);
      LastDropped(b, task);
    } else if Authentic(s.manifest, hash, c, buffer) {
      LastTaken(b, task, hash);
    } else {
      LastRejected(b, task, hash);
    }
  }

  lemma Replaced(tasks: seq<Task>, i: nat, other: Task, task: Task)
    requires i < |tasks|
    ensures tasks[i := task][..i] + tasks[i := task][i + 1..] == tasks[..i] + tasks[i + 1..]
    ensures tasks[i := other][i := task] == tasks[i := task]
  {
  }

  lemma AnsweredShape(s: Scheduler, i: nat, data: Bytes, hash: Bytes -> Digest)
    requires Waits(s, i) && s.tasks[i].phase.Fetching? && !s.tasks[i].fromP2P
    requires s.tasks[i].chunk in s.atOrigin
    ensures Resumed(Stored(Verified(Fetched(s, i, data), i, hash), i), i) == Answered(s, i, data, hash)
  {
    hide Full;
    var c, t := s.tasks[i].chunk, Fetched(s, i, data);
    if c !in s.manifest.expected {
      PassesBy(t, i, hash);
      Replaced(s.tasks, i, t.tasks[i], t.tasks[i]);
    } else if Authentic(s.manifest, hash, c, data) {
      var verifying, storing := s.tasks[i].(phase := Verifying(data)), s.tasks[i].(phase := Storing(data));
      Replaced(s.tasks, i, verifying, storing);
      Replaced(s.tasks, i, storing, s.tasks[i].(phase := Settling));
    } else {
      Replaced(s.tasks, i, s.tasks[i].(phase := Verifying(data)), s.tasks[i].(phase := Settling));
    }
  }
}
