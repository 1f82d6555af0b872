/** What the scheduler reports to its caller is what it stored, once per chunk. */
module SchedulerBytes {
  import opened Bitfields
  import opened Bytes
  import opened OrderedMaps
  import opened SchedulerModel
  import opened SchedulerPass
  import opened SchedulerSafety
  import opened SchedulerLiveness
  import opened SchedulerAtomic
  import opened SchedulerExclusion
  import opened SchedulerPotential
  import Reassembling

  /** The chunks for which `onChunkCompleted` was called, in order. */
  function Reported(log: seq<Output>): seq<nat> {
    if log == [] then []
    else
      var last := log[|log| - 1];
      Reported(log[..|log| - 1]) + if last.Completed? then [last.chunk] else []
  }

  function Counted(o: Output, fromP2P: bool): nat {
    if o.Completed? && o.fromP2P == fromP2P then o.length else 0
  }

  /** The coordinator's counters `bytesFromP2P` and `bytesFromOrigin`. */
  function BytesFrom(log: seq<Output>, fromP2P: bool): nat {
    if log == [] then 0 else BytesFrom(log[..|log| - 1], fromP2P) + Counted(log[|log| - 1], fromP2P)
  }

  /** A callback, and whether the current scheduler makes it: a stopped one still does when a write completes. */
  datatype Callback = Callback(current: bool, output: Output)

  function MadeBy(callbacks: seq<Callback>, current: bool): seq<Output> {
    if callbacks == [] then []
    else
      var last := callbacks[|callbacks| - 1];
      MadeBy(callbacks[..|callbacks| - 1], current) + if last.current == current then [last.output] else []
  }

  /** Where the callbacks report a chunk from a peer, or from the origin. */
  function Completions(callbacks: seq<Callback>, fromP2P: bool): set<nat> {
    set k: nat | k < |callbacks| && callbacks[k].output.Completed? && callbacks[k].output.fromP2P == fromP2P
  }

  lemma NothingCompleted()
    ensures Completions([], true) == {} == Completions([], false)
  {
  }

  lemma CompletionsMore(callbacks: seq<Callback>, last: Callback, fromP2P: bool)
    ensures |Completions(callbacks + [last], fromP2P)| ==
      |Completions(callbacks, fromP2P)| + if last.output.Completed? && last.output.fromP2P == fromP2P then 1 else 0
  {
    var more := Completions(callbacks + [last], fromP2P);
    if last.output.Completed? && last.output.fromP2P == fromP2P {
      assert more == Completions(callbacks, fromP2P) + {|callbacks|};
    } else {
      assert more == Completions(callbacks, fromP2P);
    }
  }

  /** The stored bytes of the chunks below `n` that were gained since `had`. */
  function GainedBytes(store: map<nat, Bytes>, have: set<nat>, had: set<nat>, n: nat): nat
    requires have <= store.Keys
  {
    if n == 0 then 0
    else GainedBytes(store, have, had, n - 1) + if n - 1 in have && n - 1 !in had then |store[n - 1]| else 0
  }

  ghost predicate Accounted(s: Scheduler, had: set<nat>) {
    && had <= s.have && s.have <= s.store.Keys
    && Distinct(Reported(s.log))
    && (forall c: nat :: c in Reported(s.log) <==> c in s.have && c !in had)
    && BytesFrom(s.log, true) + BytesFrom(s.log, false) == GainedBytes(s.store, s.have, had, s.manifest.total)
  }

  // ---------------------------------------------------------------- the two kinds of step

  ghost predicate SameRecord(s: Scheduler, t: Scheduler) {
    && t.manifest == s.manifest && t.have == s.have && t.store == s.store
    && (t.log == s.log || (t.log == s.log + [DownloadComplete] && Complete(t)))
  }

  ghost predicate NewRecord(s: Scheduler, t: Scheduler, c: nat, data: Bytes, fromP2P: bool) {
    && c < s.manifest.total && c !in s.have
    && t.manifest == s.manifest && t.have == s.have + {c} && t.store == s.store[c := data]
    && var log := s.log + [HaveSent(c)] + [Completed(c, fromP2P, |data|)];
      (t.log == log || (t.log == log + [DownloadComplete] && Complete(t)))
  }

  lemma LogGrows(log: seq<Output>, o: Output)
    ensures Reported(log + [o]) == Reported(log) + if o.Completed? then [o.chunk] else []
    ensures forall p :: BytesFrom(log + [o], p) == BytesFrom(log, p) + Counted(o, p)
  {
    assert (log + [o])[..|log|] == log;
  }

  /** A report counts for its own kind, and with its length. */
  lemma ReportCounts(log: seq<Output>, c: nat, fromP2P: bool, length: nat)
    ensures var after := log + [Completed(c, fromP2P, length)];
      && BytesFrom(after, fromP2P) == BytesFrom(log, fromP2P) + length
      && BytesFrom(after, !fromP2P) == BytesFrom(log, !fromP2P)
      && Reported(after) == Reported(log) + [c]
  {
    assert (log + [Completed(c, fromP2P, length)])[..|log|] == log;
  }

  lemma NothingMade()
    ensures forall current :: Reported(MadeBy([], current)) == []
    ensures forall p, current :: BytesFrom(MadeBy([], current), p) == 0
  {
  }

  lemma MadeMore(callbacks: seq<Callback>, last: Callback, fromP2P: bool, current: bool)
    ensures var before, after := MadeBy(callbacks, current), MadeBy(callbacks + [last], current);
      && BytesFrom(after, fromP2P) ==
           BytesFrom(before, fromP2P) + (if last.current == current then Counted(last.output, fromP2P) else 0)
      && |Reported(after)| == |Reported(before)| + if last.current == current && last.output.Completed? then 1 else 0
  {
    hide Reported, BytesFrom;
    assert (callbacks + [last])[..|callbacks|] == callbacks;
    LogGrows(MadeBy(callbacks, current), last.output);
    assert MadeBy(callbacks, current) + [] == MadeBy(callbacks, current);
  }

  lemma {:induction false} GainedMore(store: map<nat, Bytes>, have: set<nat>, had: set<nat>, c: nat, data: Bytes,
                                      n: nat)
    requires have <= store.Keys && c !in have && c !in had
    ensures GainedBytes(store[c := data], have + {c}, had, n) ==
      GainedBytes(store, have, had, n) + if c < n then |data| else 0
  {
    if n == 0 {
    } else {
      GainedMore(store, have, had, c, data, n - 1);
    }
  }

  lemma SameAccounted(s: Scheduler, t: Scheduler, had: set<nat>)
    requires SameRecord(s, t) && Accounted(s, had)
    ensures Accounted(t, had)
  {
    LogGrows(s.log, DownloadComplete);
  }

  lemma NewAccounted(s: Scheduler, t: Scheduler, c: nat, data: Bytes, fromP2P: bool, had: set<nat>)
    requires NewRecord(s, t, c, data, fromP2P) && Accounted(s, had)
    ensures Accounted(t, had)
  {
    var sent := s.log + [HaveSent(c)];
    var done := sent + [Completed(c, fromP2P, |data|)];
    LogGrows(s.log, HaveSent(c));
    LogGrows(sent, Completed(c, fromP2P, |data|));
    LogGrows(done, DownloadComplete);
    GainedMore(s.store, s.have, had, c, data, s.manifest.total);
  }

  // ---------------------------------------------------------------- which steps are which

  lemma WaitingLog(s: Scheduler, i: nat, data: Bytes)
    ensures Fetched(s, i, data).log == s.log && Rejected(s, i).log == s.log && Resumed(s, i).log == s.log
  {
    hide PhaseFor;
  }

  lemma ResumingLog(s: Scheduler, input: Input, hash: Bytes -> Digest)
    requires
      || input.event.FetchResolved? || input.event.VerifyResolved?
      || input.event.AwaitRejected? || input.event.Continued?
    ensures Before(s, input, hash).log == s.log
  {
    hide Move, Verified, HandlePiece, Stored, Requeue, ScheduleChunk, Marked;
    if input.event.VerifyResolved? {
      VerifyingLeaves(s, input.event.task, hash);
    } else if input.event.FetchResolved? {
      WaitingLog(s, input.event.task, input.event.data);
    } else {
      WaitingLog(s, input.event.task, []);
    }
  }

  lemma BeforeLog(s: Scheduler, input: Input, hash: Bytes -> Digest)
    requires !input.event.PutResolved?
    ensures Before(s, input, hash).log == s.log
  {
    hide ScheduleChunk, Requeue, Reassembling.Complete, Reassembling.Overruns, Reassembling.Assembled, Received, Marked,
      PhaseFor, Verified, Fetched, Rejected, Resumed;
    match input.event
    case LostPeer(p) => RequeueKeepsRest(Forget(s, p), s.inFlight, p, |s.inFlight.keys|, input.sends);
    case TimedOut(c) =>
      if c in s.inFlight.vals {
        ChunkKeepsRest(Abandon(s, c), c, s.inFlight.vals[c].retries + 1, input.sends);
      }
    case GotHave(p, c) => MarkedLeaves(s, p, c);
    case SharedHave(p, c) => SharedLeaves(s, p, c);
    case _ =>
      if || input.event.FetchResolved? || input.event.VerifyResolved?
         || input.event.AwaitRejected? || input.event.Continued?
      {
        ResumingLog(s, input, hash);
      }
  }

  lemma SyncRecords(s: Scheduler, input: Input, hash: Bytes -> Digest)
    requires IsSync(input.event)
    ensures SameRecord(s, Before(s, input, hash))
  {
    hide Before;
    BeforeLog(s, input, hash);
    BeforeQuiet(s, input, hash);
  }

  lemma TookRecords(s: Scheduler, c: nat, data: Bytes, fromP2P: bool)
    requires c < s.manifest.total && c !in s.have
    ensures NewRecord(s, Took(s, c, data, fromP2P), c, data, fromP2P)
  {
    assert s.log + [HaveSent(c), Completed(c, fromP2P, |data|)]
        == s.log + [HaveSent(c)] + [Completed(c, fromP2P, |data|)];
  }

  lemma DeliveredRecords(s: Scheduler, c: nat, buffer: Bytes, hash: Bytes -> Digest, had: set<nat>)
    requires Neat(s) && Exclusive(s) && Accounted(s, had) && c in s.inFlight.vals
    ensures Accounted(Delivered(s, c, buffer, hash), had)
  {
    hide Took, Neat, Accounted;
    var t := Delivered(s, c, buffer, hash);
    if Authentic(s.manifest, hash, c, buffer) {
      RetriesBounded(s, c);
      TookRecords(Abandon(s, c), c, buffer, true);
      NewAccounted(s, t, c, buffer, true, had);
    } else {
      SameAccounted(s, t, had);
    }
  }

  lemma HandledRecords(s: Scheduler, c: nat, offset: nat, total: nat, data: Bytes)
    ensures SameRecord(s, HandlePiece(s, c, offset, total, data))
  {
    hide Reassembling.Complete, Reassembling.Overruns, Reassembling.Assembled, Received;
  }

  lemma PieceRecords(s: Scheduler, input: AtomicInput, hash: Bytes -> Digest, had: set<nat>)
    requires Neat(s) && Exclusive(s) && Accounted(s, had) && input.event.Piece?
    ensures Accounted(AtomicBefore(s, input, hash), had)
  {
    hide Reassembling.Complete, Reassembling.Overruns, Reassembling.Assembled, Received, Delivered, HandlePiece, Neat,
      Exclusive, Accounted, SameRecord;
    var Piece(c, offset, total, data) := input.event;
    if Finishes(s, c, offset, total, data) && !OverrunningPiece(s, c, offset, total, data) {
      DeliveredRecords(s, c, Reassembling.Assembled(Received(s, c, offset, total, data)), hash, had);
    } else {
      HandledRecords(s, c, offset, total, data);
      SameAccounted(s, HandlePiece(s, c, offset, total, data), had);
    }
  }

  lemma FetchRecords(s: Scheduler, input: AtomicInput, i: nat, hash: Bytes -> Digest, had: set<nat>)
    requires Neat(s) && Exclusive(s) && Accounted(s, had) && Waits(s, i)
    requires input.event == FetchFailed(i) || (input.event.FetchDone? && input.event.task == i)
    ensures Accounted(AtomicBefore(s, input, hash), had)
  {
    hide Took, Accounted;
    var c := s.tasks[i].chunk;
    var t := AtomicBefore(s, input, hash);
    if input.event.FetchDone? && Authentic(s.manifest, hash, c, input.event.data) {
      var b := Drop(s, i).(atOrigin := s.atOrigin - {c});
      TookRecords(b, c, input.event.data, false);
      NewAccounted(s, t, c, input.event.data, false, had);
    } else {
      SameAccounted(s, t, had);
    }
  }

  lemma PassRecords(s: Scheduler, sends: Sends)
    ensures SameRecord(s, ScheduleNext(s, sends))
  {
    PassGrows(s, sends);
  }

  lemma StepAccounted(s: Scheduler, input: AtomicInput, hash: Bytes -> Digest, had: set<nat>)
    requires Neat(s) && Exclusive(s) && Accounted(s, had)
    ensures Accounted(AtomicStep(s, input, hash), had)
  {
    hide Neat, Exclusive, Accounted, AtomicStep, AtomicSchedules, ScheduleNext, Before;
    AtomicSplits(s, input, hash);
    var b := AtomicBefore(s, input, hash);
    assert Accounted(b, had) by {
      match input.event
      case Sync(event) =>
        if IsSync(event) {
          SyncRecords(s, Input(event, input.sends), hash);
          SameAccounted(s, b, had);
        }
      case Piece(_, _, _, _) => PieceRecords(s, input, hash, had);
      case FetchDone(i, _) =>
        if Waits(s, i) {
          FetchRecords(s, input, i, hash, had);
        }
      case FetchFailed(i) =>
        if Waits(s, i) {
          FetchRecords(s, input, i, hash, had);
        }
    }
    PassRecords(b, input.sends);
    SameAccounted(b, ScheduleNext(b, input.sends), had);
  }

  lemma {:induction false} NothingGained(store: map<nat, Bytes>, had: set<nat>, n: nat)
    requires had <= store.Keys
    ensures GainedBytes(store, had, had, n) == 0
  {
    if n == 0 {
    } else {
      NothingGained(store, had, n - 1);
    }
  }

  /**
   * Byte conservation. In every atomic run each gained chunk is reported exactly once, nothing
   * else is, and the bytes reported from peers and from the origin add up to the bytes stored
   * for the gained chunks.
   */
  lemma {:induction false} Conservation(manifest: Manifest, had: set<nat>, store: map<nat, Bytes>,
                                        inputs: seq<AtomicInput>, hash: Bytes -> Digest)
    requires ValidStore(manifest, had, store, hash)
    ensures Accounted(AtomicRun(Initial(manifest, had, store), inputs, hash), had)
  {
    hide Safe, Exclusive, AtomicStep;
    var s := Initial(manifest, had, store);
    InitialReady(manifest, had, store, hash);
    if inputs == [] {
      NothingGained(store, had, manifest.total);
    } else {
      hide Accounted;
      var front, last := inputs[..|inputs| - 1], inputs[|inputs| - 1];
      Conservation(manifest, had, store, front, hash);
      AtomicRunSafe(s, front, hash);
      SafeNeat(AtomicRun(s, front, hash), hash);
      RunPays(s, front, hash);
      StepAccounted(AtomicRun(s, front, hash), last, hash, had);
    }
  }

  // ---------------------------------------------------------------- across awaits

  /** Whether the event completes the write of a chunk that is already possessed. */
  predicate PutsAgain(s: Scheduler, event: Event) {
    && event.PutResolved? && Waits(s, event.task) && s.tasks[event.task].phase.Storing?
    && s.tasks[event.task].chunk in s.have
  }

  ghost predicate NeverPutsAgain(s: Scheduler, inputs: seq<Input>, hash: Bytes -> Digest) {
    forall k :: 0 <= k < |inputs| ==> !PutsAgain(Run(s, inputs[..k], hash), inputs[k].event)
  }

  lemma VerifiedData(s: Scheduler, input: Input, hash: Bytes -> Digest)
    requires input.event.VerifyResolved?
    ensures var t := Before(s, input, hash); t.manifest == s.manifest && t.have == s.have && t.store == s.store
  {
    hide Verified;
    VerifyingLeaves(s, input.event.task, hash);
  }

  /** Only a finished write reports a chunk. */
  lemma OthersRecord(s: Scheduler, input: Input, hash: Bytes -> Digest)
    requires !(input.event.PutResolved? && Waits(s, input.event.task) && s.tasks[input.event.task].phase.Storing?)
    ensures SameRecord(s, Step(s, input, hash))
  {
    if input.event.PutResolved? {
    } else {
      hide Before, Step, Schedules, ScheduleNext;
      StepSplits(s, input, hash);
      BeforeLog(s, input, hash);
      if input.event.VerifyResolved? {
        VerifiedData(s, input, hash);
      } else {
        BeforeQuiet(s, input, hash);
      }
      PassRecords(Before(s, input, hash), input.sends);
    }
  }

  /** Each gained chunk, and no other, was reported, and once. */
  ghost predicate ReportedOnce(s: Scheduler, had: set<nat>) {
    && Distinct(Reported(s.log))
    && forall c: nat :: c in Reported(s.log) <==> c in s.have && c !in had
  }

  ghost predicate NoneUnreported(s: Scheduler, had: set<nat>) {
    had <= s.have && s.have <= s.store.Keys && forall c :: c in s.have ==> c in had || c in Reported(s.log)
  }

  lemma PutReports(s: Scheduler, i: nat, had: set<nat>)
    requires Waits(s, i) && s.tasks[i].phase.Storing? && NoneUnreported(s, had)
    ensures var t := Stored(s, i);
      && t.manifest == s.manifest
      && Reported(t.log) == Reported(s.log) + [s.tasks[i].chunk]
      && NoneUnreported(t, had)
  {
    hide Full;
    var c, n := s.tasks[i].chunk, |s.tasks[i].phase.data|;
    var sent := s.log + [HaveSent(c)];
    var done := sent + [Completed(c, s.tasks[i].fromP2P, n)];
    assert s.log + [HaveSent(c), Completed(c, s.tasks[i].fromP2P, n)] == done;
    LogGrows(s.log, HaveSent(c));
    LogGrows(sent, Completed(c, s.tasks[i].fromP2P, n));
    LogGrows(done, DownloadComplete);
  }

  lemma StoredHave(s: Scheduler, i: nat)
    requires Waits(s, i) && s.tasks[i].phase.Storing?
    ensures Stored(s, i).have == s.have + {s.tasks[i].chunk}
    ensures s.tasks[i].chunk < s.manifest.total && s.tasks[i].chunk !in s.have ==>
      NewRecord(s, Stored(s, i), s.tasks[i].chunk, s.tasks[i].phase.data, s.tasks[i].fromP2P)
  {
    hide Full;
    var c, n := s.tasks[i].chunk, |s.tasks[i].phase.data|;
    assert s.log + [HaveSent(c), Completed(c, s.tasks[i].fromP2P, n)]
        == s.log + [HaveSent(c)] + [Completed(c, s.tasks[i].fromP2P, n)];
  }

  /** A first write keeps the account; a second one spoils it. */
  lemma PutAccounts(s: Scheduler, i: nat, had: set<nat>)
    requires Waits(s, i) && s.tasks[i].phase.Storing? && s.tasks[i].chunk < s.manifest.total && NoneUnreported(s, had)
    ensures s.tasks[i].chunk in s.have ==> !ReportedOnce(Stored(s, i), had)
    ensures s.tasks[i].chunk !in s.have ==> (ReportedOnce(Stored(s, i), had) ==> ReportedOnce(s, had))
    ensures s.tasks[i].chunk !in s.have && Accounted(s, had) ==> Accounted(Stored(s, i), had)
  {
    hide Stored, Reported;
    var c, t := s.tasks[i].chunk, Stored(s, i);
    PutReports(s, i, had);
    StoredHave(s, i);
    var r := Reported(s.log);
    assert Reported(t.log)[|r|] == c;
    assert forall j :: 0 <= j < |r| ==> Reported(t.log)[j] == r[j];
    if c !in s.have && Accounted(s, had) {
      NewAccounted(s, t, c, s.tasks[i].phase.data, s.tasks[i].fromP2P, had);
    }
  }

  lemma LastPut(s: Scheduler, inputs: seq<Input>, hash: Bytes -> Digest)
    requires inputs != []
    ensures var n := |inputs| - 1;
      NeverPutsAgain(s, inputs, hash) <==>
        NeverPutsAgain(s, inputs[..n], hash) && !PutsAgain(Run(s, inputs[..n], hash), inputs[n].event)
  {
    hide Run, PutsAgain;
    var n := |inputs| - 1;
    assert forall k :: 0 <= k < n ==> inputs[..n][..k] == inputs[..k];
    if NeverPutsAgain(s, inputs[..n], hash) && !PutsAgain(Run(s, inputs[..n], hash), inputs[n].event) {
      forall k | 0 <= k < |inputs| ensures !PutsAgain(Run(s, inputs[..k], hash), inputs[k].event) {
        assert k < n ==> inputs[..n][k] == inputs[k];
      }
    } else if NeverPutsAgain(s, inputs, hash) {
      forall k | 0 <= k < n ensures !PutsAgain(Run(s, inputs[..n][..k], hash), inputs[..n][k].event) {
        assert inputs[..n][k] == inputs[k];
      }
    }
  }

  lemma SafeInRange(s: Scheduler, i: nat, hash: Bytes -> Digest)
    requires Safe(s, hash) && Waits(s, i)
    ensures s.tasks[i].chunk < s.manifest.total
  {
  }

  lemma SameReported(s: Scheduler, t: Scheduler, had: set<nat>)
    requires SameRecord(s, t) && NoneUnreported(s, had)
    ensures NoneUnreported(t, had) && (ReportedOnce(t, had) <==> ReportedOnce(s, had))
    ensures Accounted(s, had) ==> Accounted(t, had)
  {
    LogGrows(s.log, DownloadComplete);
    assert Reported(s.log) + [] == Reported(s.log);
    if Accounted(s, had) {
      SameAccounted(s, t, had);
    }
  }

  lemma StepAccounts(s: Scheduler, input: Input, hash: Bytes -> Digest, had: set<nat>)
    requires Safe(s, hash) && NoneUnreported(s, had)
    ensures var t := Step(s, input, hash);
      && NoneUnreported(t, had)
      && (PutsAgain(s, input.event) ==> !ReportedOnce(t, had))
      && (!PutsAgain(s, input.event) ==> (ReportedOnce(t, had) ==> ReportedOnce(s, had)))
      && (!PutsAgain(s, input.event) && Accounted(s, had) ==> Accounted(t, had))
  {
    hide Step, Stored, Accounted, ReportedOnce, NoneUnreported, Sound, Neat;
    if input.event.PutResolved? && Waits(s, input.event.task) && s.tasks[input.event.task].phase.Storing? {
      var i := input.event.task;
      StepResumes(s, input, hash);
      SafeInRange(s, i, hash);
      PutReports(s, i, had);
      PutAccounts(s, i, had);
    } else {
      OthersRecord(s, input, hash);
      SameReported(s, Step(s, input, hash), had);
    }
  }

  /**
   * Across awaits, exactly: over any interleaving each gained chunk is reported once and all
   * bytes are accounted for if and only if no write completes for a chunk that was possessed
   * already, as happens when the chunk was asked for again while it was being verified.
   */
  lemma {:induction false} ConservedExactly(manifest: Manifest, had: set<nat>, store: map<nat, Bytes>,
                                            inputs: seq<Input>, hash: Bytes -> Digest)
    requires ValidStore(manifest, had, store, hash)
    ensures var s := Initial(manifest, had, store);
      var t := Run(s, inputs, hash);
      && NoneUnreported(t, had)
      && (NeverPutsAgain(s, inputs, hash) ==> Accounted(t, had))
      && (ReportedOnce(t, had) ==> NeverPutsAgain(s, inputs, hash))
  {
    var s := Initial(manifest, had, store);
    if inputs == [] {
      NothingGained(store, had, manifest.total);
    } else {
      hide Step, Stored, Accounted, ReportedOnce, NoneUnreported, Safe, PutsAgain, NeverPutsAgain, ValidStore;
      var front, last := inputs[..|inputs| - 1], inputs[|inputs| - 1];
      var t := Run(s, front, hash);
      ConservedExactly(manifest, had, store, front, hash);
      LastPut(s, inputs, hash);
      InitialReady(manifest, had, store, hash);
      RunSafe(s, front, hash);
      StepAccounts(t, last, hash, had);
    }
  }

  // ---------------------------------------------------------------- announcements

  /** Each gained chunk was announced, and a download is reported as finished when it is, and not before. */
  ghost predicate Heralded(s: Scheduler, had: set<nat>) {
    && (forall c: nat :: c in s.have ==> c in had || HaveSent(c) in s.log)
    && (Complete(s) ==> Full(had, s.manifest.total) || DownloadComplete in s.log)
    && (DownloadComplete in s.log ==> Complete(s))
  }

  lemma SameHeralded(s: Scheduler, t: Scheduler, had: set<nat>)
    requires SameRecord(s, t) && Heralded(s, had)
    ensures Heralded(t, had)
  {
  }

  lemma FullGrows(have: set<nat>, more: set<nat>, n: nat)
    requires Full(have, n) && have <= more
    ensures Full(more, n)
  {
  }

  lemma PutHeralded(s: Scheduler, i: nat, had: set<nat>)
    requires Waits(s, i) && s.tasks[i].phase.Storing? && Heralded(s, had)
    ensures Heralded(Stored(s, i), had)
  {
    hide Full;
    var c, n := s.tasks[i].chunk, |s.tasks[i].phase.data|;
    var t := Stored(s, i);
    var log := s.log + [HaveSent(c), Completed(c, s.tasks[i].fromP2P, n)];
    assert log[|s.log|] == HaveSent(c);
    assert t.log == log || (t.log == log + [DownloadComplete] && Complete(t));
    assert t.have == s.have + {c};
    assert t.manifest == s.manifest;
    if Complete(s) {
      FullGrows(s.have, t.have, s.manifest.total);
    }
  }

  lemma NothingHeralded(s: Scheduler)
    requires DownloadComplete !in s.log
    ensures Heralded(s, s.have)
  {
  }

  lemma {:induction false} RunHeralded(s: Scheduler, inputs: seq<Input>, hash: Bytes -> Digest)
    requires DownloadComplete !in s.log
    ensures Heralded(Run(s, inputs, hash), s.have)
  {
    hide Step, Heralded, Stored;
    if inputs == [] {
      NothingHeralded(s);
    } else {
      var t, last := Run(s, inputs[..|inputs| - 1], hash), inputs[|inputs| - 1];
      RunHeralded(s, inputs[..|inputs| - 1], hash);
      if last.event.PutResolved? && Waits(t, last.event.task) && t.tasks[last.event.task].phase.Storing? {
        StepResumes(t, last, hash);
        PutHeralded(t, last.event.task, s.have);
      } else {
        OthersRecord(t, last, hash);
        SameHeralded(t, Step(t, last, hash), s.have);
      }
    }
  }
}
