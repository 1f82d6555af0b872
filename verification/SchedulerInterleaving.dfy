/**
 * What atomic handling keeps and awaits can break: each chunk in one place, which is three laws, and
 * the limit of eight. Each law is broken by one kind of event only, which is named exactly.
 */
module SchedulerInterleaving {
  import opened Bytes
  import opened OrderedMaps
  import opened SchedulerModel
  import opened SchedulerPass
  import opened SchedulerSafety
  import opened SchedulerAtomic
  import Reassembling

  // ---------------------------------------------------------------- the laws and what breaks them

  /** No possessed chunk is in flight. */
  ghost predicate Apart(s: Scheduler) {
    forall c: nat :: c in s.have ==> c !in s.inFlight.vals
  }

  /** No chunk is asked of a peer and of the origin at once. */
  ghost predicate OneSource(s: Scheduler) {
    forall c: nat :: c in s.inFlight.vals ==> c !in s.atOrigin
  }

  /** No possessed chunk is at the origin. */
  ghost predicate NotRefetched(s: Scheduler) {
    forall c: nat :: c in s.have ==> c !in s.atOrigin
  }

  predicate WithinCap(s: Scheduler) {
    Outstanding(s) <= MAX_TOTAL_IN_FLIGHT
  }

  /** The event completes the write of a chunk that was asked for again. */
  predicate PutsInFlight(s: Scheduler, event: Event) {
    event.PutResolved? && Waits(s, event.task) && s.tasks[event.task].phase.Storing?
    && s.tasks[event.task].chunk in s.inFlight.vals
  }

  /** The event completes the write of a chunk whose fetch is not settled. */
  predicate PutsAtOrigin(s: Scheduler, event: Event) {
    event.PutResolved? && Waits(s, event.task) && s.tasks[event.task].phase.Storing?
    && s.tasks[event.task].chunk in s.atOrigin
  }

  /** The event refuses a chunk that is then asked of the origin. */
  predicate Refuses(s: Scheduler, event: Event, hash: Bytes -> Digest) {
    event.VerifyResolved? && Waits(s, event.task) && s.tasks[event.task].phase.Verifying?
    && !Authentic(s.manifest, hash, s.tasks[event.task].chunk, s.tasks[event.task].phase.data)
    && s.tasks[event.task].chunk !in s.have && s.tasks[event.task].chunk !in s.atOrigin
  }

  predicate RefusesInFlight(s: Scheduler, event: Event, hash: Bytes -> Digest) {
    Refuses(s, event, hash) && s.tasks[event.task].chunk in s.inFlight.vals
  }

  predicate RefusesAtCap(s: Scheduler, event: Event, hash: Bytes -> Digest) {
    Refuses(s, event, hash) && Outstanding(s) >= MAX_TOTAL_IN_FLIGHT
  }

  ghost predicate Keeps(s: Scheduler, t: Scheduler) {
    && (Apart(s) ==> Apart(t))
    && (OneSource(s) ==> OneSource(t))
    && (NotRefetched(s) ==> NotRefetched(t))
    && Outstanding(t) <= Max(Outstanding(s), MAX_TOTAL_IN_FLIGHT)
  }

  lemma KeepsCompose(s: Scheduler, t: Scheduler, u: Scheduler)
    requires Keeps(s, t) && Keeps(t, u)
    ensures Keeps(s, u)
  {
  }

  // ---------------------------------------------------------------- what keeps them

  /** What is asked for anew was idle. */
  lemma GrowthKeeps(s: Scheduler, t: Scheduler)
    requires Grows(s, t) && Outstanding(t) <= Max(Outstanding(s), MAX_TOTAL_IN_FLIGHT)
    ensures Keeps(s, t)
  {
    hide NewFetches, Offers;
  }

  lemma KeepsItself(s: Scheduler)
    ensures Keeps(s, s)
  {
  }

  /** Fewer requests, and the same data, are within every law. */
  lemma FewerKeeps(s: Scheduler, t: Scheduler)
    requires t.have == s.have && t.inFlight.vals.Keys <= s.inFlight.vals.Keys && t.atOrigin <= s.atOrigin
    ensures Keeps(s, t)
  {
    SubsetSmaller(t.inFlight.vals.Keys, s.inFlight.vals.Keys);
    SubsetSmaller(t.atOrigin, s.atOrigin);
  }

  lemma ScheduleNextKeepsAll(s: Scheduler, sends: Sends)
    ensures Keeps(s, ScheduleNext(s, sends))
  {
    hide Pass, Grows, Keeps, Complete;
    PassGrows(s, sends);
    GrowthKeeps(s, Pass(s, sends));
    KeepsItself(s);
    FewerKeeps(s, s.(log := s.log + [DownloadComplete]));
  }

  lemma AbandonLess(s: Scheduler, c: nat)
    ensures var b := Abandon(s, c);
      b.inFlight.vals == s.inFlight.vals - {c} && b.atOrigin == s.atOrigin && b.have == s.have
  {
  }

  lemma OriginMore(s: Scheduler, c: nat)
    requires c !in s.have
    ensures var t := DispatchOrigin(s, c);
      && t.have == s.have && t.inFlight == s.inFlight
      && t.atOrigin == s.atOrigin + {c} && |t.atOrigin| <= |s.atOrigin| + 1
  {
  }

  lemma MovedKeeps(s: Scheduler, c: nat)
    requires c in s.inFlight.vals && c !in s.have
    ensures var t := DispatchOrigin(Abandon(s, c), c);
      Keeps(s, t) && t.inFlight.vals == s.inFlight.vals - {c}
  {
    hide Abandon, DispatchOrigin;
    var t := DispatchOrigin(Abandon(s, c), c);
    AbandonLess(s, c);
    OriginMore(Abandon(s, c), c);
    assert t.inFlight.vals.Keys == s.inFlight.vals.Keys - {c};
    assert Outstanding(t) <= Outstanding(s);
  }

  lemma PlacedKeeps(s: Scheduler, t: Scheduler, c: nat, retries: nat)
    requires c in s.inFlight.vals && c !in s.have && Placed(Abandon(s, c), t, c, retries)
    ensures Keeps(s, t)
    ensures forall d: nat :: d != c && d in s.inFlight.vals ==> d in t.inFlight.vals
  {
    hide Offers, Keeps, Abandon, DispatchOrigin;
    AbandonLess(s, c);
    if t == DispatchOrigin(Abandon(s, c), c) {
      MovedKeeps(s, c);
    } else {
      assert t.inFlight.vals.Keys == s.inFlight.vals.Keys;
      FewerKeeps(s, t);
    }
  }

  /** A request that is given up is replaced by at most one other. */
  lemma ReplaceKeeps(s: Scheduler, c: nat, retries: nat, sends: Sends)
    requires c in s.inFlight.vals
    ensures var t := ScheduleChunk(Abandon(s, c), c, retries, sends);
      && Keeps(s, t)
      && forall d: nat :: d != c && d in s.inFlight.vals ==> d in t.inFlight.vals
  {
    hide ScheduleChunk, Keeps, Abandon, Placed;
    var b := Abandon(s, c);
    AbandonLess(s, c);
    if c !in s.have {
      ChunkPlaces(b, c, retries, sends);
      PlacedKeeps(s, ScheduleChunk(b, c, retries, sends), c, retries);
    } else {
      PossessedStays(b, c, retries, sends);
      FewerKeeps(s, b);
    }
  }

  lemma {:induction false} RequeueKeeps(s: Scheduler, lost: OrderedMap<nat, Request>, p: PeerId, k: nat, sends: Sends)
    requires k <= |lost.keys| && forall j :: 0 <= j < |lost.keys| ==> lost.keys[j] in s.inFlight.vals
    ensures var t := Requeue(s, lost, p, k, sends);
      Keeps(s, t) && forall j :: k <= j < |lost.keys| ==> lost.keys[j] in t.inFlight.vals
  {
    hide Keeps, ScheduleChunk, Abandon;
    if k == 0 {
      KeepsItself(s);
    } else {
      RequeueKeeps(s, lost, p, k - 1, sends);
      var t, c := Requeue(s, lost, p, k - 1, sends), lost.keys[k - 1];
      if lost.vals[c].peer == p {
        ReplaceKeeps(t, c, lost.vals[c].retries + 1, sends);
        KeepsCompose(s, t, Requeue(s, lost, p, k, sends));
      }
    }
  }

  lemma LostKeeps(s: Scheduler, p: PeerId, sends: Sends)
    ensures Keeps(s, Requeue(Forget(s, p), s.inFlight, p, |s.inFlight.keys|, sends))
  {
    hide Keeps, Requeue;
    var f := Forget(s, p);
    FewerKeeps(s, f);
    forall j | 0 <= j < |s.inFlight.keys| ensures s.inFlight.keys[j] in f.inFlight.vals {
      assert s.inFlight.keys[j] in s.inFlight.vals.Keys;
    }
    RequeueKeeps(f, s.inFlight, p, |s.inFlight.keys|, sends);
    KeepsCompose(s, f, Requeue(f, s.inFlight, p, |s.inFlight.keys|, sends));
  }

  lemma DataRequests(s: Scheduler, i: nat, data: Bytes)
    ensures forall t :: t == Fetched(s, i, data) || t == Rejected(s, i) || t == Resumed(s, i) ==>
      t.have == s.have && t.inFlight == s.inFlight && t.atOrigin <= s.atOrigin
  {
    hide PhaseFor, Move;
    if Waits(s, i) {
      MoveLeaves(s, i, Settling);
      MoveLeaves(s, i, PhaseFor(s.manifest, s.tasks[i].chunk, data));
    }
  }

  lemma PieceRequests(s: Scheduler, c: nat, offset: nat, total: nat, data: Bytes)
    ensures var t := HandlePiece(s, c, offset, total, data);
      t.have == s.have && t.inFlight.vals.Keys <= s.inFlight.vals.Keys && t.atOrigin == s.atOrigin
  {
    hide Reassembling.Complete, Reassembling.Overruns, Reassembling.Assembled, Received, PhaseFor, Abandon;
    AbandonLess(s, c);
  }

  /** Only a finished hash or write can break a law. */
  lemma BeforeKeeps(s: Scheduler, input: Input, hash: Bytes -> Digest)
    requires !input.event.VerifyResolved? && !input.event.PutResolved?
    ensures Keeps(s, Before(s, input, hash))
  {
    hide Keeps, ScheduleChunk, Requeue, HandlePiece, Fetched, Rejected, Resumed, Verified, Stored, Marked,
      MarkShared, Abandon;
    var t := Before(s, input, hash);
    if ConcernsPeers(input.event) {
      PeersLeave(s, input, hash);
      FewerKeeps(s, t);
    } else {
      match input.event
      case LostPeer(p) => LostKeeps(s, p, input.sends);
      case TimedOut(c) =>
        KeepsItself(s);
        if c in s.inFlight.vals {
          ReplaceKeeps(s, c, s.inFlight.vals[c].retries + 1, input.sends);
        }
      case GotPiece(c, offset, total, data) =>
        PieceRequests(s, c, offset, total, data);
        FewerKeeps(s, t);
      case FetchResolved(i, data) =>
        DataRequests(s, i, data);
        FewerKeeps(s, t);
      case AwaitRejected(i) =>
        DataRequests(s, i, []);
        FewerKeeps(s, t);
      case Continued(i) =>
        DataRequests(s, i, []);
        FewerKeeps(s, t);
      case Stopped => FewerKeeps(s, Stop(s));
    }
  }

  lemma OthersKeep(s: Scheduler, input: Input, hash: Bytes -> Digest)
    requires !input.event.VerifyResolved? && !input.event.PutResolved?
    ensures Keeps(s, Step(s, input, hash))
  {
    hide Keeps, Before, Step, Schedules, ScheduleNext;
    StepSplits(s, input, hash);
    BeforeKeeps(s, input, hash);
    ScheduleNextKeepsAll(Before(s, input, hash), input.sends);
    KeepsCompose(s, Before(s, input, hash), ScheduleNext(Before(s, input, hash), input.sends));
  }

  // ---------------------------------------------------------------- what breaks them

  lemma VerifyingRequests(s: Scheduler, i: nat, hash: Bytes -> Digest)
    ensures var t := Verified(s, i, hash);
      && t.have == s.have && t.inFlight == s.inFlight
      && t.atOrigin == if Refuses(s, VerifyResolved(i), hash) then s.atOrigin + {s.tasks[i].chunk} else s.atOrigin
  {
    hide Authentic, Move;
    if Waits(s, i) && s.tasks[i].phase.Verifying? {
      MoveLeaves(s, i, Storing(s.tasks[i].phase.data));
      MoveLeaves(DispatchOrigin(s, s.tasks[i].chunk), i, Settling);
    }
  }

  lemma StoringRequests(s: Scheduler, i: nat)
    ensures var t := Stored(s, i);
      && t.inFlight == s.inFlight && t.atOrigin == s.atOrigin
      && t.have == if Waits(s, i) && s.tasks[i].phase.Storing? then s.have + {s.tasks[i].chunk} else s.have
  {
  }

  /** Possessed chunks stay out of flight if and only if no write completes for one in flight. */
  lemma ApartExactly(s: Scheduler, input: Input, hash: Bytes -> Digest)
    requires Apart(s)
    ensures Apart(Step(s, input, hash)) <==> !PutsInFlight(s, input.event)
  {
    hide Step, Stored, Verified;
    if input.event.PutResolved? {
      StepResumes(s, input, hash);
      StoringRequests(s, input.event.task);
    } else if input.event.VerifyResolved? {
      StepResumes(s, input, hash);
      VerifyingRequests(s, input.event.task, hash);
    } else {
      OthersKeep(s, input, hash);
    }
  }

  /** Each chunk is asked of one source if and only if none is refused that is in flight again. */
  lemma OneSourceExactly(s: Scheduler, input: Input, hash: Bytes -> Digest)
    requires OneSource(s)
    ensures OneSource(Step(s, input, hash)) <==> !RefusesInFlight(s, input.event, hash)
  {
    hide Step, Stored, Verified;
    if input.event.PutResolved? {
      StepResumes(s, input, hash);
      StoringRequests(s, input.event.task);
    } else if input.event.VerifyResolved? {
      StepResumes(s, input, hash);
      VerifyingRequests(s, input.event.task, hash);
    } else {
      OthersKeep(s, input, hash);
    }
  }

  /** Possessed chunks are not at the origin if and only if no write completes for one that is. */
  lemma NotRefetchedExactly(s: Scheduler, input: Input, hash: Bytes -> Digest)
    requires NotRefetched(s)
    ensures NotRefetched(Step(s, input, hash)) <==> !PutsAtOrigin(s, input.event)
  {
    hide Step, Stored, Verified;
    if input.event.PutResolved? {
      StepResumes(s, input, hash);
      StoringRequests(s, input.event.task);
    } else if input.event.VerifyResolved? {
      StepResumes(s, input, hash);
      VerifyingRequests(s, input.event.task, hash);
    } else {
      OthersKeep(s, input, hash);
    }
  }

  /** At most eight requests are outstanding if and only if no chunk is refused while eight are. */
  lemma CapExactly(s: Scheduler, input: Input, hash: Bytes -> Digest)
    requires WithinCap(s)
    ensures WithinCap(Step(s, input, hash)) <==> !RefusesAtCap(s, input.event, hash)
    ensures RefusesAtCap(s, input.event, hash) ==> Outstanding(Step(s, input, hash)) == 9
  {
    hide Step, Stored, Verified;
    if input.event.PutResolved? {
      StepResumes(s, input, hash);
      StoringRequests(s, input.event.task);
    } else if input.event.VerifyResolved? {
      StepResumes(s, input, hash);
      VerifyingRequests(s, input.event.task, hash);
    } else {
      OthersKeep(s, input, hash);
    }
  }

  // ---------------------------------------------------------------- runs

  ghost predicate Always(s: Scheduler, inputs: seq<Input>, hash: Bytes -> Digest, law: Scheduler -> bool) {
    forall k :: 0 <= k <= |inputs| ==> law(Run(s, inputs[..k], hash))
  }

  ghost predicate NeverFaulty(s: Scheduler, inputs: seq<Input>, hash: Bytes -> Digest,
                              fault: (Scheduler, Event) -> bool) {
    forall k :: 0 <= k < |inputs| ==> !fault(Run(s, inputs[..k], hash), inputs[k].event)
  }

  lemma AlwaysSplits(s: Scheduler, inputs: seq<Input>, hash: Bytes -> Digest, law: Scheduler -> bool)
    requires inputs != []
    ensures var n := |inputs| - 1;
      Always(s, inputs, hash, law) <==> Always(s, inputs[..n], hash, law) && law(Run(s, inputs, hash))
    ensures Always(s, inputs[..|inputs| - 1], hash, law) ==> law(Run(s, inputs[..|inputs| - 1], hash))
  {
    hide Run;
    var n := |inputs| - 1;
    assert forall k :: 0 <= k <= n ==> inputs[..n][..k] == inputs[..k];
    assert inputs[..n + 1] == inputs;
    assert inputs[..n][..n] == inputs[..n];
  }

  lemma FaultySplits(s: Scheduler, inputs: seq<Input>, hash: Bytes -> Digest, fault: (Scheduler, Event) -> bool)
    requires inputs != []
    ensures var n := |inputs| - 1;
      NeverFaulty(s, inputs, hash, fault) <==>
        NeverFaulty(s, inputs[..n], hash, fault) && !fault(Run(s, inputs[..n], hash), inputs[n].event)
  {
    hide Run;
    var n := |inputs| - 1;
    assert forall k :: 0 <= k < n ==> inputs[..n][..k] == inputs[..k] && inputs[..n][k] == inputs[k];
  }

  /** What holds of each step holds of runs: a law is kept throughout if and only if no fault occurs. */
  lemma {:induction false} LawsOverRuns(s: Scheduler, inputs: seq<Input>, hash: Bytes -> Digest, law: Scheduler -> bool,
                                        fault: (Scheduler, Event) -> bool)
    requires law(s)
    requires forall t, input :: law(t) ==> (law(Step(t, input, hash)) <==> !fault(t, input.event))
    ensures Always(s, inputs, hash, law) <==> NeverFaulty(s, inputs, hash, fault)
  {
    hide Step;
    if inputs == [] {
    } else {
      var n := |inputs| - 1;
      LawsOverRuns(s, inputs[..n], hash, law, fault);
      assert forall k :: 0 <= k <= n ==> inputs[..n][..k] == inputs[..k];
      assert inputs[..n + 1] == inputs;
      AlwaysSplits(s, inputs, hash, law);
      FaultySplits(s, inputs, hash, fault);
    }
  }

  /** The chunks refused so far while eight or more were outstanding. */
  function RefusalsAtCap(s: Scheduler, inputs: seq<Input>, hash: Bytes -> Digest): nat {
    if inputs == [] then 0
    else
      var front, last := inputs[..|inputs| - 1], inputs[|inputs| - 1];
      RefusalsAtCap(s, front, hash) + if RefusesAtCap(Run(s, front, hash), last.event, hash) then 1 else 0
  }

  /** Beyond eight each further request is the fetch of a chunk refused at the limit, for any state. */
  lemma StepOverCap(s: Scheduler, input: Input, hash: Bytes -> Digest)
    ensures Outstanding(Step(s, input, hash)) <=
      Max(Outstanding(s), MAX_TOTAL_IN_FLIGHT) + if RefusesAtCap(s, input.event, hash) then 1 else 0
  {
    hide Step, Stored, Verified;
    if input.event.PutResolved? {
      StepResumes(s, input, hash);
      StoringRequests(s, input.event.task);
    } else if input.event.VerifyResolved? {
      StepResumes(s, input, hash);
      VerifyingRequests(s, input.event.task, hash);
    } else {
      OthersKeep(s, input, hash);
    }
  }

  lemma CapMeans(s: Scheduler)
    ensures WithinCap(s) <==> Outstanding(s) <= 8
  {
  }

  /** Over any interleaving at most eight requests are outstanding, and one more for each refusal at the limit. */
  lemma {:induction false} RunOverCap(s: Scheduler, inputs: seq<Input>, hash: Bytes -> Digest)
    requires WithinCap(s)
    ensures Outstanding(Run(s, inputs, hash)) <= 8 + RefusalsAtCap(s, inputs, hash)
  {
    hide Step, Outstanding, RefusesAtCap;
    if inputs == [] {
      CapMeans(s);
    } else {
      var front := inputs[..|inputs| - 1];
      RunOverCap(s, front, hash);
      StepOverCap(Run(s, front, hash), inputs[|inputs| - 1], hash);
    }
  }

  /** One place per chunk: possessed, in flight or at the origin, and at most one of these. */
  ghost predicate OnePlace(s: Scheduler) {
    s.have !! s.inFlight.vals.Keys && s.have !! s.atOrigin && s.inFlight.vals.Keys !! s.atOrigin
  }

  /** A write or a refusal for a chunk that has another place by then. */
  predicate Displaces(s: Scheduler, event: Event, hash: Bytes -> Digest) {
    PutsInFlight(s, event) || PutsAtOrigin(s, event) || RefusesInFlight(s, event, hash)
  }

  lemma OnePlaceIsThree(s: Scheduler)
    ensures OnePlace(s) <==> Apart(s) && OneSource(s) && NotRefetched(s)
  {
  }

  lemma OnePlaceExactly(s: Scheduler, input: Input, hash: Bytes -> Digest)
    requires OnePlace(s)
    ensures OnePlace(Step(s, input, hash)) <==> !Displaces(s, input.event, hash)
  {
    hide OnePlace, Apart, OneSource, NotRefetched, Step, PutsInFlight, PutsAtOrigin, RefusesInFlight;
    OnePlaceIsThree(s);
    OnePlaceIsThree(Step(s, input, hash));
    ApartExactly(s, input, hash);
    OneSourceExactly(s, input, hash);
    NotRefetchedExactly(s, input, hash);
  }

  /**
   * Over any interleaving, exactly: possessed chunks stay out of flight until a write completes
   * for a chunk in flight, and away from the origin until one completes for a chunk at the origin;
   * each chunk is asked of one source until one is refused in flight; so each chunk has one place
   * until one of the three; and at most eight are outstanding until a chunk is refused at eight.
   */
  lemma RunsExactly(s: Scheduler, inputs: seq<Input>, hash: Bytes -> Digest)
    ensures Apart(s) ==>
      (Always(s, inputs, hash, t => Apart(t)) <==> NeverFaulty(s, inputs, hash, (t, e) => PutsInFlight(t, e)))
    ensures OneSource(s) ==>
      (Always(s, inputs, hash, t => OneSource(t))
       <==> NeverFaulty(s, inputs, hash, (t, e) => RefusesInFlight(t, e, hash)))
    ensures NotRefetched(s) ==>
      (Always(s, inputs, hash, t => NotRefetched(t)) <==> NeverFaulty(s, inputs, hash, (t, e) => PutsAtOrigin(t, e)))
    ensures OnePlace(s) ==>
      (Always(s, inputs, hash, t => OnePlace(t)) <==> NeverFaulty(s, inputs, hash, (t, e) => Displaces(t, e, hash)))
    ensures WithinCap(s) ==>
      (Always(s, inputs, hash, t => WithinCap(t)) <==> NeverFaulty(s, inputs, hash, (t, e) => RefusesAtCap(t, e, hash)))
  {
    hide Apart, OneSource, NotRefetched, OnePlace, WithinCap, Step, PutsInFlight, PutsAtOrigin, RefusesInFlight,
      RefusesAtCap, Displaces, Always, NeverFaulty;
    if Apart(s) {
      forall t, input | Apart(t) ensures Apart(Step(t, input, hash)) <==> !PutsInFlight(t, input.event) {
        ApartExactly(t, input, hash);
      }
      LawsOverRuns(s, inputs, hash, t => Apart(t), (t, e) => PutsInFlight(t, e));
    }
    if OneSource(s) {
      forall t, input | OneSource(t)
        ensures OneSource(Step(t, input, hash)) <==> !RefusesInFlight(t, input.event, hash)
      {
        OneSourceExactly(t, input, hash);
      }
      LawsOverRuns(s, inputs, hash, t => OneSource(t), (t, e) => RefusesInFlight(t, e, hash));
    }
    if NotRefetched(s) {
      forall t, input | NotRefetched(t) ensures NotRefetched(Step(t, input, hash)) <==> !PutsAtOrigin(t, input.event) {
        NotRefetchedExactly(t, input, hash);
      }
      LawsOverRuns(s, inputs, hash, t => NotRefetched(t), (t, e) => PutsAtOrigin(t, e));
    }
    if OnePlace(s) {
      forall t, input | OnePlace(t) ensures OnePlace(Step(t, input, hash)) <==> !Displaces(t, input.event, hash) {
        OnePlaceExactly(t, input, hash);
      }
      LawsOverRuns(s, inputs, hash, t => OnePlace(t), (t, e) => Displaces(t, e, hash));
    }
    if WithinCap(s) {
      forall t, input | WithinCap(t) ensures WithinCap(Step(t, input, hash)) <==> !RefusesAtCap(t, input.event, hash) {
        CapExactly(t, input, hash);
      }
      LawsOverRuns(s, inputs, hash, t => WithinCap(t), (t, e) => RefusesAtCap(t, e, hash));
    }
  }
}
