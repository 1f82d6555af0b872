/**
 * The potential across awaits. There a chunk that has arrived is no longer asked for and not yet
 * possessed, so that an arrival is a loan: it raises the potential, and the write pays it back.
 */
module SchedulerCosts {
  import opened Bitfields
  import opened Bytes
  import opened OrderedMaps
  import opened SchedulerModel
  import opened SchedulerPass
  import opened SchedulerSafety
  import opened SchedulerExclusion
  import opened SchedulerPotential
  import SchedulerInterleaving
  import Reassembling

  /** The request in flight is the chunk's only place. */
  predicate Exposed(s: Scheduler, c: nat) {
    c in s.inFlight.vals && c !in s.have && c !in s.atOrigin
  }

  /** The requests of a peer that are so. */
  function ExposedTo(s: Scheduler, p: PeerId): set<nat> {
    set c | c in Carried(s, p) && Exposed(s, c)
  }

  /** The piece ends the only request, whether the chunk is handed over or the copy throws. */
  predicate EndsRequest(s: Scheduler, c: nat, offset: nat, total: nat, data: Bytes) {
    Exposed(s, c) && Reassembling.Complete(Received(s, c, offset, total, data))
  }

  /** The event completes the write of a missing chunk. */
  predicate Writes(s: Scheduler, event: Event) {
    event.PutResolved? && Waits(s, event.task) && s.tasks[event.task].phase.Storing?
    && s.tasks[event.task].chunk !in s.have
  }

  /** The event settles a fetch whose chunk is still missing. */
  predicate SettlesInVain(s: Scheduler, event: Event) {
    event.Continued? && Waits(s, event.task) && s.tasks[event.task].phase.Settling?
    && !s.tasks[event.task].fromP2P && s.tasks[event.task].chunk !in s.have
  }

  /** The timeouts, lost requests, refusals and writes that the event is, for chunks that had no other place. */
  function Advances(s: Scheduler, event: Event, hash: Bytes -> Digest): nat {
    match event
    case TimedOut(c) => if Exposed(s, c) then 1 else 0
    case LostPeer(p) => |ExposedTo(s, p)|
    case VerifyResolved(_) => if SchedulerInterleaving.Refuses(s, event, hash) then 1 else 0
    case PutResolved(_) => if Writes(s, event) then 1 else 0
    case _ => 0
  }

  /** What the event takes back: an ended request, a fetch in vain, or all that `stop` clears. */
  function Loan(s: Scheduler, event: Event): nat {
    match event
    case GotPiece(c, offset, total, data) => if EndsRequest(s, c, offset, total, data) then 3 else 0
    case Continued(_) => if SettlesInVain(s, event) then 4 else 0
    case Stopped => 4 * Outstanding(s)
    case _ => 0
  }

  // ---------------------------------------------------------------- costs

  lemma SameCosts(s: Scheduler, t: Scheduler)
    requires t.have == s.have && t.inFlight == s.inFlight && t.atOrigin == s.atOrigin
    ensures forall c: nat :: Cost(t, c) == Cost(s, c)
  {
  }

  lemma GrowsNoDearer(s: Scheduler, t: Scheduler)
    requires Grows(s, t)
    ensures NoDearer(s, t)
  {
    hide NewFetches, Offers;
  }

  lemma GrowsManifest(s: Scheduler, t: Scheduler)
    requires Grows(s, t)
    ensures t.manifest == s.manifest
  {
    hide NewFetches, Offers;
  }

  lemma NextNoDearer(s: Scheduler, sends: Sends)
    ensures NoDearer(s, ScheduleNext(s, sends)) && ScheduleNext(s, sends).manifest == s.manifest
  {
    hide Pass, Cost, Grows, Complete;
    PassGrows(s, sends);
    GrowsNoDearer(s, Pass(s, sends));
    SameCosts(s, s.(log := s.log + [DownloadComplete]));
    GrowsManifest(s, Pass(s, sends));
  }

  lemma NoDearerTotal(s: Scheduler, t: Scheduler)
    requires NoDearer(s, t) && t.manifest == s.manifest
    ensures Potential(t) <= Potential(s)
  {
    hide Cost;
    CostsMove(s, t, s.manifest.total, 0, 0);
  }

  lemma OneMoves(s: Scheduler, t: Scheduler, c: nat, d: int)
    requires t.manifest == s.manifest && (d < 0 ==> c < s.manifest.total)
    requires forall x: nat :: x != c ==> Cost(t, x) <= Cost(s, x)
    requires Cost(t, c) <= Cost(s, c) + d
    ensures Potential(t) <= Potential(s) + d
  {
    hide Cost;
    CostsMove(s, t, s.manifest.total, c, d);
  }

  /** Chunks that became dearer raise the sum by at most four each. */
  lemma {:induction false} CostsRise(s: Scheduler, t: Scheduler, rose: set<nat>, n: nat)
    requires forall x: nat :: Cost(t, x) <= Cost(s, x) + if x in rose then 4 else 0
    ensures CostBelow(t, n) <= CostBelow(s, n) + 4 * |Under(rose, n)|
  {
    hide Cost;
    if n == 0 {
    } else {
      CostsRise(s, t, rose, n - 1);
      var below, fewer := Under(rose, n), Under(rose, n - 1);
      assert below == if n - 1 in rose then fewer + {n - 1} else fewer;
      assert n - 1 !in fewer;
    }
  }

  // ---------------------------------------------------------------- requests that are replaced

  lemma AbandonedCosts(s: Scheduler, c: nat)
    requires c in s.inFlight.vals
    ensures forall x: nat :: x != c ==> Cost(Abandon(s, c), x) == Cost(s, x)
    ensures !Exposed(s, c) ==> Cost(Abandon(s, c), c) == Cost(s, c)
    ensures s.inFlight.vals[c].retries <= REQUEST_RETRIES ==> Cost(Abandon(s, c), c) <= Cost(s, c) + 3
  {
  }

  lemma DispatchManifest(s: Scheduler, c: nat)
    ensures DispatchOrigin(s, c).manifest == s.manifest
  {
  }

  lemma PlacedCosts(s: Scheduler, t: Scheduler, c: nat, retries: nat)
    requires c in s.inFlight.vals && c !in s.have && s.inFlight.vals[c].retries <= REQUEST_RETRIES
    requires retries == s.inFlight.vals[c].retries + 1 && Placed(Abandon(s, c), t, c, retries)
    ensures NoDearer(s, t) && (Exposed(s, c) ==> Cost(t, c) < Cost(s, c))
    ensures t.manifest == s.manifest && t.have == s.have
  {
    hide Offers, Outstanding, Abandon, DispatchOrigin;
    SchedulerInterleaving.AbandonLess(s, c);
    AbandonManifest(s, c);
    SchedulerInterleaving.OriginMore(Abandon(s, c), c);
    DispatchManifest(Abandon(s, c), c);
  }

  lemma ReplaceCosts(s: Scheduler, c: nat, sends: Sends)
    requires c in s.inFlight.vals && s.inFlight.vals[c].retries <= REQUEST_RETRIES
    ensures var t := ScheduleChunk(Abandon(s, c), c, s.inFlight.vals[c].retries + 1, sends);
      && NoDearer(s, t) && (Exposed(s, c) ==> Cost(t, c) < Cost(s, c))
      && t.manifest == s.manifest && t.have == s.have
  {
    hide ScheduleChunk, Cost, Abandon, Placed;
    var b, retries := Abandon(s, c), s.inFlight.vals[c].retries + 1;
    SchedulerInterleaving.AbandonLess(s, c);
    AbandonManifest(s, c);
    if c in s.have {
      PossessedStays(b, c, retries, sends);
      AbandonedCosts(s, c);
    } else {
      ChunkPlaces(b, c, retries, sends);
      PlacedCosts(s, ScheduleChunk(b, c, retries, sends), c, retries);
    }
  }

  lemma FirstInFlight(s: Scheduler, lost: OrderedMap<nat, Request>, p: PeerId, k: nat)
    requires k < |lost.keys| && Tidy(s) && Requeuing(s, lost, p, 0)
    ensures var c := lost.keys[k];
      && c in s.inFlight.vals && s.inFlight.vals[c] == lost.vals[c]
      && s.inFlight.vals[c].retries <= REQUEST_RETRIES
  {
  }

  /** The same request is as exposed as before, or its chunk is at the origin. */
  lemma StillExposed(s: Scheduler, t: Scheduler, c: nat)
    requires Exposed(s, c) && t.have == s.have && s.inFlight.vals[c].retries <= REQUEST_RETRIES
    requires c in t.inFlight.vals && t.inFlight.vals[c] == s.inFlight.vals[c]
    ensures Exposed(t, c) || Cost(t, c) < Cost(s, c)
  {
  }

  lemma {:induction false} RequeueCosts(s: Scheduler, lost: OrderedMap<nat, Request>, p: PeerId, k: nat, sends: Sends)
    requires k <= |lost.keys| && Tidy(s) && Requeuing(s, lost, p, 0) && p !in s.peers.vals
    ensures var t := Requeue(s, lost, p, k, sends);
      && NoDearer(s, t) && t.manifest == s.manifest && t.have == s.have
      && forall j :: 0 <= j < k && lost.vals[lost.keys[j]].peer == p && Exposed(s, lost.keys[j]) ==>
           Cost(t, lost.keys[j]) < Cost(s, lost.keys[j])
  {
    hide Cost, Tidy, Requeuing, ScheduleChunk, Abandon, Exposed;
    if k == 0 {
    } else {
      RequeueCosts(s, lost, p, k - 1, sends);
      RequeueTidy(s, lost, p, k - 1, sends);
      var t, c := Requeue(s, lost, p, k - 1, sends), lost.keys[k - 1];
      if lost.vals[c].peer == p {
        StillInFlight(t, lost, p, k - 1);
        ReplaceCosts(t, c, sends);
        if Exposed(s, c) {
          FirstInFlight(s, lost, p, k - 1);
          StillExposed(s, t, c);
        }
      }
    }
  }

  lemma ExposedMeans(s: Scheduler, f: Scheduler, p: PeerId, c: nat)
    requires c in ExposedTo(s, p) && f.have == s.have && f.inFlight == s.inFlight && f.atOrigin == s.atOrigin
    ensures c in s.inFlight.vals && s.inFlight.vals[c].peer == p && Exposed(f, c)
  {
  }

  lemma PotentialIs(s: Scheduler)
    ensures Potential(s) == CostBelow(s, s.manifest.total)
  {
  }

  lemma RemoveCosts(s: Scheduler, p: PeerId, sends: Sends)
    requires Neat(s)
    ensures var t := Requeue(Forget(s, p), s.inFlight, p, |s.inFlight.keys|, sends);
      && t.manifest == s.manifest
      && Potential(t) + |ExposedTo(s, p)| <= Potential(s)
  {
    hide Cost, Tidy, Requeuing, Requeue, ExposedTo, Potential;
    var f, t := Forget(s, p), Requeue(Forget(s, p), s.inFlight, p, |s.inFlight.keys|, sends);
    var fell, n := ExposedTo(s, p), s.manifest.total;
    ForgetTidy(s, p);
    SameCosts(s, f);
    RequeueCosts(f, s.inFlight, p, |s.inFlight.keys|, sends);
    forall c | c in fell ensures Cost(t, c) < Cost(s, c) && c < n {
      ExposedMeans(s, f, p, c);
      assert c in s.inFlight.keys;
      RetriesBounded(s, c);
    }
    CostsFall(s, t, fell, n);
    assert Under(fell, n) == fell;
    PotentialIs(s);
    PotentialIs(t);
  }

  lemma SameExposed(s: Scheduler, t: Scheduler, c: nat)
    requires t.have == s.have && t.inFlight == s.inFlight && t.atOrigin == s.atOrigin
    ensures Exposed(t, c) <==> Exposed(s, c)
    ensures Exposed(s, c) ==> c in s.inFlight.vals
  {
  }

  // ---------------------------------------------------------------- events

  lemma PieceCosts(s: Scheduler, c: nat, offset: nat, total: nat, data: Bytes)
    requires Neat(s)
    ensures var t := HandlePiece(s, c, offset, total, data);
      t.manifest == s.manifest && Potential(t) <= Potential(s) + Loan(s, GotPiece(c, offset, total, data))
  {
    hide Neat, Cost, Potential, Abandon, Received, Reassembling.Complete, Reassembling.Overruns, Reassembling.Assembled;
    var t := HandlePiece(s, c, offset, total, data);
    AbandonManifest(s, c);
    if c in s.inFlight.vals && Reassembling.Complete(Received(s, c, offset, total, data)) {
      RetriesBounded(s, c);
      AbandonedCosts(s, c);
      SameCosts(Abandon(s, c), t);
      OneMoves(s, t, c, if Exposed(s, c) then 3 else 0);
    } else {
      SameCosts(s, t);
      NoDearerTotal(s, t);
    }
  }

  lemma StopRaises(s: Scheduler, x: nat)
    requires Neat(s)
    ensures Cost(Stop(s), x) <= Cost(s, x) + if x in s.inFlight.vals || x in s.atOrigin then 4 else 0
  {
    if x in s.inFlight.vals {
      RetriesBounded(s, x);
    }
  }

  lemma StopCosts(s: Scheduler)
    requires Neat(s)
    ensures Stop(s).manifest == s.manifest && Potential(Stop(s)) <= Potential(s) + 4 * Outstanding(s)
  {
    hide Neat, Cost, CostBelow;
    var n, asked, rose := s.manifest.total, s.inFlight.vals.Keys, s.inFlight.vals.Keys + s.atOrigin;
    forall x: nat ensures Cost(Stop(s), x) <= Cost(s, x) + if x in rose then 4 else 0 {
      StopRaises(s, x);
    }
    CostsRise(s, Stop(s), rose, n);
    SubsetSmaller(Under(rose, n), rose);
    assert |asked| == |s.inFlight.vals| && |rose| <= |asked| + |s.atOrigin|;
  }

  lemma WaitingCosts(s: Scheduler, i: nat, data: Bytes)
    ensures forall t :: t == Fetched(s, i, data) || t == Rejected(s, i) ==>
      t.manifest == s.manifest && t.have == s.have && t.inFlight == s.inFlight && t.atOrigin == s.atOrigin
  {
    hide PhaseFor, Move;
    if Waits(s, i) {
      MoveLeaves(s, i, Settling);
      MoveLeaves(s, i, PhaseFor(s.manifest, s.tasks[i].chunk, data));
    }
  }

  lemma SettledCosts(s: Scheduler, i: nat)
    ensures var t := Resumed(s, i);
      t.manifest == s.manifest && Potential(t) <= Potential(s) + Loan(s, Continued(i))
  {
    hide Potential;
    var t := Resumed(s, i);
    if Waits(s, i) && s.tasks[i].phase.Settling? && !s.tasks[i].fromP2P {
      var c := s.tasks[i].chunk;
      if c in s.have {
        NoDearerTotal(s, t);
      } else {
        OneMoves(s, t, c, 4);
      }
    } else {
      SameCosts(s, t);
      NoDearerTotal(s, t);
    }
  }

  lemma VerifiedManifest(s: Scheduler, i: nat, hash: Bytes -> Digest)
    ensures Verified(s, i, hash).manifest == s.manifest && Stored(s, i).manifest == s.manifest
  {
  }

  lemma VerifiedCosts(s: Scheduler, i: nat, hash: Bytes -> Digest)
    requires Neat(s)
    ensures var t := Verified(s, i, hash);
      t.manifest == s.manifest && Potential(t) + Advances(s, VerifyResolved(i), hash) <= Potential(s)
  {
    hide Verified, Potential, Authentic;
    var t := Verified(s, i, hash);
    SchedulerInterleaving.VerifyingRequests(s, i, hash);
    VerifiedManifest(s, i, hash);
    if SchedulerInterleaving.Refuses(s, VerifyResolved(i), hash) {
      var c := s.tasks[i].chunk;
      if c in s.inFlight.vals {
        RetriesBounded(s, c);
      }
      OneMoves(s, t, c, -1);
    } else {
      SameCosts(s, t);
      NoDearerTotal(s, t);
    }
  }

  lemma StoredCosts(s: Scheduler, i: nat, hash: Bytes -> Digest)
    requires Neat(s)
    ensures var t := Stored(s, i);
      t.manifest == s.manifest && Potential(t) + Advances(s, PutResolved(i), hash) <= Potential(s)
  {
    hide Stored, Potential;
    var t := Stored(s, i);
    SchedulerInterleaving.StoringRequests(s, i);
    VerifiedManifest(s, i, hash);
    if Writes(s, PutResolved(i)) {
      var c := s.tasks[i].chunk;
      if c in s.inFlight.vals {
        RetriesBounded(s, c);
      }
      OneMoves(s, t, c, -1);
    } else {
      assert t.have == s.have;
      SameCosts(s, t);
      NoDearerTotal(s, t);
    }
  }

  lemma TimeoutCosts(s: Scheduler, c: nat, sends: Sends, hash: Bytes -> Digest)
    requires Neat(s)
    ensures var t := Before(s, Input(TimedOut(c), sends), hash);
      t.manifest == s.manifest && Potential(t) + Advances(s, TimedOut(c), hash) <= Potential(s)
  {
    hide Neat, Cost, Potential, ScheduleChunk, Exposed;
    SameExposed(s, s, c);
    if c in s.inFlight.vals {
      RetriesBounded(s, c);
      ReplaceCosts(s, c, sends);
      OneMoves(s, Before(s, Input(TimedOut(c), sends), hash), c, if Exposed(s, c) then -1 else 0);
    }
  }

  lemma BeforeCosts(s: Scheduler, input: Input, hash: Bytes -> Digest)
    requires Neat(s)
    ensures var t := Before(s, input, hash);
      && t.manifest == s.manifest
      && Potential(t) + Advances(s, input.event, hash) <= Potential(s) + Loan(s, input.event)
  {
    hide Neat, Potential, Cost, Requeue, ScheduleChunk, HandlePiece, Fetched, Rejected, Resumed, Verified, Stored,
      Marked, MarkShared, Stop, Exposed, Outstanding;
    var t := Before(s, input, hash);
    if ConcernsPeers(input.event) {
      PeersLeave(s, input, hash);
      SameCosts(s, t);
      NoDearerTotal(s, t);
    } else {
      match input.event
      case LostPeer(p) => RemoveCosts(s, p, input.sends);
      case TimedOut(c) => TimeoutCosts(s, c, input.sends, hash);
      case GotPiece(c, offset, total, data) => PieceCosts(s, c, offset, total, data);
      case FetchResolved(i, data) =>
        WaitingCosts(s, i, data);
        SameCosts(s, t);
        NoDearerTotal(s, t);
      case AwaitRejected(i) =>
        WaitingCosts(s, i, []);
        SameCosts(s, t);
        NoDearerTotal(s, t);
      case VerifyResolved(i) => VerifiedCosts(s, i, hash);
      case PutResolved(i) => StoredCosts(s, i, hash);
      case Continued(i) => SettledCosts(s, i);
      case Stopped => StopCosts(s);
    }
  }

  /**
   * One event of any interleaving: the potential falls by the timeouts, lost requests, refusals
   * and writes that the event is, and rises only by its loan.
   */
  lemma StepCosts(s: Scheduler, input: Input, hash: Bytes -> Digest)
    requires Neat(s)
    ensures var t := Step(s, input, hash);
      && t.manifest == s.manifest
      && Potential(t) + Advances(s, input.event, hash) <= Potential(s) + Loan(s, input.event)
  {
    hide Neat, Potential, Cost, Step, Before, Schedules, ScheduleNext, Advances, Loan, NoDearer;
    var b := Before(s, input, hash);
    BeforeCosts(s, input, hash);
    StepSplits(s, input, hash);
    NextNoDearer(b, input.sends);
    NoDearerTotal(b, ScheduleNext(b, input.sends));
  }

  // ---------------------------------------------------------------- runs

  function Advanced(s: Scheduler, inputs: seq<Input>, hash: Bytes -> Digest): nat {
    if inputs == [] then 0
    else
      var front, last := inputs[..|inputs| - 1], inputs[|inputs| - 1];
      Advanced(s, front, hash) + Advances(Run(s, front, hash), last.event, hash)
  }

  function Lent(s: Scheduler, inputs: seq<Input>, hash: Bytes -> Digest): nat {
    if inputs == [] then 0
    else
      var front, last := inputs[..|inputs| - 1], inputs[|inputs| - 1];
      Lent(s, front, hash) + Loan(Run(s, front, hash), last.event)
  }

  lemma {:induction false} RunCosts(s: Scheduler, inputs: seq<Input>, hash: Bytes -> Digest)
    requires Safe(s, hash)
    ensures var t := Run(s, inputs, hash);
      Potential(t) + Advanced(s, inputs, hash) <= Potential(s) + Lent(s, inputs, hash)
  {
    hide Safe, Potential, Step, Advances, Loan, Neat, Sound;
    if inputs == [] {
    } else {
      var front := inputs[..|inputs| - 1];
      RunCosts(s, front, hash);
      RunSafe(s, front, hash);
      SafeNeat(Run(s, front, hash), hash);
      StepCosts(Run(s, front, hash), inputs[|inputs| - 1], hash);
    }
  }

  /**
   * Over any interleaving, the timeouts, lost requests, refusals and writes number at most five
   * for each chunk that was missing, plus three for each ended request, four for each fetch in
   * vain, and four for each request that a `stop` cleared; at that bound nothing is missing.
   */
  lemma InterleavedBound(manifest: Manifest, have: set<nat>, store: map<nat, Bytes>, inputs: seq<Input>,
                         hash: Bytes -> Digest)
    requires ValidStore(manifest, have, store, hash)
    ensures var s := Initial(manifest, have, store);
      var bound := 5 * |MissingBelow(have, manifest.total)| + Lent(s, inputs, hash);
      && Advanced(s, inputs, hash) <= bound
      && (Advanced(s, inputs, hash) == bound ==> Complete(Run(s, inputs, hash)))
  {
    hide Safe, Neat, Potential, Run, Complete;
    var s := Initial(manifest, have, store);
    InitialReady(manifest, have, store, hash);
    RunCosts(s, inputs, hash);
    RunSafe(s, inputs, hash);
    SafeNeat(Run(s, inputs, hash), hash);
    PotentialZero(Run(s, inputs, hash));
  }
}
