/** One place per chunk: what every atomic run from `start` to `stop` keeps. */
module SchedulerExclusion {
  import opened Bytes
  import opened OrderedMaps
  import opened SchedulerModel
  import opened SchedulerPass
  import opened SchedulerSafety
  import opened SchedulerAtomic

  ghost predicate OneFetchEach(s: Scheduler) {
    && (forall i :: 0 <= i < |s.tasks| ==>
          s.tasks[i] == Task(s.tasks[i].chunk, false, Fetching) && s.tasks[i].chunk in s.atOrigin)
    && (forall i, j :: 0 <= i < j < |s.tasks| ==> s.tasks[i].chunk != s.tasks[j].chunk)
  }

  /**
   * A chunk is possessed, in flight or at the origin, and at most one of these; at most eight
   * are outstanding; and the tasks are one fetch for each chunk at the origin.
   */
  ghost predicate Exclusive(s: Scheduler) {
    && (forall c: nat :: c in s.have ==> !IsOutstanding(s, c))
    && (forall c: nat :: c in s.inFlight.vals ==> c !in s.atOrigin)
    && Outstanding(s) <= MAX_TOTAL_IN_FLIGHT
    && OneFetchEach(s)
  }

  // ---------------------------------------------------------------- the potential of one chunk

  /** How many more things can go wrong with a chunk before it is possessed, and one more. */
  function Cost(s: Scheduler, c: nat): int {
    if c in s.have then 0
    else if c in s.atOrigin then 1
    else if c in s.inFlight.vals then 4 - s.inFlight.vals[c].retries
    else 5
  }

  ghost predicate NoDearer(s: Scheduler, t: Scheduler) {
    forall c: nat :: Cost(t, c) <= Cost(s, c)
  }

  // ---------------------------------------------------------------- growing

  lemma GrowsExclusive(s: Scheduler, t: Scheduler)
    requires Exclusive(s) && Grows(s, t) && Outstanding(t) <= MAX_TOTAL_IN_FLIGHT
    ensures Exclusive(t) && NoDearer(s, t)
  {
    forall i | 0 <= i < |t.tasks|
      ensures t.tasks[i] == Task(t.tasks[i].chunk, false, Fetching) && t.tasks[i].chunk in t.atOrigin
    {
      if i < |s.tasks| {
        assert t.tasks[i] == s.tasks[i];
      }
    }
    forall i, j | 0 <= i < j < |t.tasks| ensures t.tasks[i].chunk != t.tasks[j].chunk {
      if i < |s.tasks| {
        assert t.tasks[i] == s.tasks[i];
      }
      if j < |s.tasks| {
        assert t.tasks[j] == s.tasks[j];
      }
    }
  }

  lemma ScheduleNextExclusive(s: Scheduler, sends: Sends)
    requires Exclusive(s)
    ensures Exclusive(ScheduleNext(s, sends)) && NoDearer(s, ScheduleNext(s, sends))
  {
    hide Grows, Pass;
    PassGrows(s, sends);
    if !Complete(s) && s.running && Outstanding(s) < MAX_TOTAL_IN_FLIGHT {
      GrowsExclusive(s, Pass(s, sends));
    }
  }

  // ---------------------------------------------------------------- replacing a request

  lemma AbandonExclusive(s: Scheduler, c: nat)
    requires Exclusive(s) && c in s.inFlight.vals
    ensures Exclusive(Abandon(s, c)) && Outstanding(Abandon(s, c)) == Outstanding(s) - 1
  {
    assert Abandon(s, c).inFlight.vals.Keys == s.inFlight.vals.Keys - {c};
  }

  lemma OriginCost(s: Scheduler, c: nat, retries: nat)
    requires Exclusive(s) && c in s.inFlight.vals && retries == s.inFlight.vals[c].retries + 1 <= REQUEST_RETRIES + 1
    ensures var t := DispatchOrigin(Abandon(s, c), c); NoDearer(s, t) && Cost(t, c) < Cost(s, c)
  {
    hide OneFetchEach, Outstanding;
  }

  lemma AskedCost(s: Scheduler, t: Scheduler, c: nat, retries: nat)
    requires Exclusive(s) && c in s.inFlight.vals && retries == s.inFlight.vals[c].retries + 1
    requires Asked(Abandon(s, c), t, c, retries)
    ensures NoDearer(s, t) && Cost(t, c) < Cost(s, c)
  {
    hide OneFetchEach, Outstanding, Offers;
  }

  lemma PlacedCost(s: Scheduler, t: Scheduler, c: nat, retries: nat)
    requires Exclusive(s) && c in s.inFlight.vals && retries == s.inFlight.vals[c].retries + 1 <= REQUEST_RETRIES + 1
    requires Placed(Abandon(s, c), t, c, retries)
    ensures NoDearer(s, t) && Cost(t, c) < Cost(s, c)
  {
    hide OneFetchEach, Outstanding, Offers, Cost;
    if t == DispatchOrigin(Abandon(s, c), c) {
      OriginCost(s, c, retries);
    } else {
      AskedCost(s, t, c, retries);
    }
  }

  /** A request that timed out or was lost is replaced by a cheaper one. */
  lemma ReplaceExclusive(s: Scheduler, c: nat, sends: Sends)
    requires Exclusive(s) && c in s.inFlight.vals && c < s.manifest.total
    requires s.inFlight.vals[c].retries <= REQUEST_RETRIES
    ensures var t := ScheduleChunk(Abandon(s, c), c, s.inFlight.vals[c].retries + 1, sends);
      && Exclusive(t) && NoDearer(s, t) && Cost(t, c) < Cost(s, c)
      && t.log == s.log && t.have == s.have && t.store == s.store && t.manifest == s.manifest
  {
    var b := Abandon(s, c);
    var retries := s.inFlight.vals[c].retries + 1;
    var t := ScheduleChunk(b, c, retries, sends);
    AbandonExclusive(s, c);
    ChunkPlaces(b, c, retries, sends);
    PlacingGrows(b, t, c, retries);
    GrowsExclusive(b, t);
    PlacedCost(s, t, c, retries);
  }

  lemma StillInFlight(s: Scheduler, lost: OrderedMap<nat, Request>, p: PeerId, k: nat)
    requires k < |lost.keys| && Tidy(s) && Requeuing(s, lost, p, k)
    ensures var c := lost.keys[k];
      && c in s.inFlight.vals && s.inFlight.vals[c] == lost.vals[c]
      && c < s.manifest.total && s.inFlight.vals[c].retries <= REQUEST_RETRIES
  {
  }

  lemma {:induction false} RequeueExclusive(s: Scheduler, lost: OrderedMap<nat, Request>, p: PeerId, k: nat,
                                            sends: Sends)
    requires k <= |lost.keys| && Tidy(s) && Requeuing(s, lost, p, 0) && p !in s.peers.vals && Exclusive(s)
    ensures var t := Requeue(s, lost, p, k, sends);
      && Exclusive(t) && NoDearer(s, t)
      && (forall j :: 0 <= j < k && lost.vals[lost.keys[j]].peer == p ==> Cost(t, lost.keys[j]) < Cost(s, lost.keys[j]))
      && t.log == s.log && t.have == s.have && t.store == s.store && t.manifest == s.manifest
  {
    hide Exclusive, Cost, Tidy, Requeuing, ScheduleChunk, Abandon;
    if k == 0 {
    } else {
      RequeueExclusive(s, lost, p, k - 1, sends);
      RequeueTidy(s, lost, p, k - 1, sends);
      var t := Requeue(s, lost, p, k - 1, sends);
      var c := lost.keys[k - 1];
      if lost.vals[c].peer == p {
        StillInFlight(t, lost, p, k - 1);
        ReplaceExclusive(t, c, sends);
      }
    }
  }

  lemma ForgetExclusive(s: Scheduler, p: PeerId)
    requires Exclusive(s)
    ensures Exclusive(Forget(s, p)) && forall c: nat :: Cost(Forget(s, p), c) == Cost(s, c)
  {
  }

  lemma RemoveExclusive(s: Scheduler, p: PeerId, sends: Sends)
    requires Neat(s) && Exclusive(s)
    ensures var t := Requeue(Forget(s, p), s.inFlight, p, |s.inFlight.keys|, sends);
      && Exclusive(t) && NoDearer(s, t)
      && (forall c: nat :: c in s.inFlight.vals && s.inFlight.vals[c].peer == p ==> Cost(t, c) < Cost(s, c))
      && t.log == s.log && t.have == s.have && t.store == s.store && t.manifest == s.manifest
  {
    hide Exclusive, Cost, Tidy, Requeuing, Requeue;
    var f := Forget(s, p);
    ForgetTidy(s, p);
    ForgetExclusive(s, p);
    RequeueExclusive(f, s.inFlight, p, |s.inFlight.keys|, sends);
    var t := Requeue(f, s.inFlight, p, |s.inFlight.keys|, sends);
    forall c: nat | c in s.inFlight.vals && s.inFlight.vals[c].peer == p ensures Cost(t, c) < Cost(s, c) {
      assert c in s.inFlight.keys;
    }
  }

  // ---------------------------------------------------------------- arriving data

  lemma TookExclusive(s: Scheduler, c: nat, data: Bytes, fromP2P: bool)
    requires Exclusive(s) && !IsOutstanding(s, c)
    ensures Exclusive(Took(s, c, data, fromP2P)) && NoDearer(s, Took(s, c, data, fromP2P))
    ensures Cost(Took(s, c, data, fromP2P), c) == 0
  {
  }

  lemma AbandonCost(s: Scheduler, c: nat)
    requires Neat(s) && Exclusive(s) && c in s.inFlight.vals
    ensures c < s.manifest.total && Cost(s, c) >= 2 && Cost(Abandon(s, c), c) <= Cost(s, c) + 3
    ensures forall d: nat :: d != c ==> Cost(Abandon(s, c), d) == Cost(s, d)
    ensures Idle(Abandon(s, c), c) && Outstanding(s) <= MAX_TOTAL_IN_FLIGHT
  {
    hide Backed, TasksWell, KnownPeers, OneFetchEach, Outstanding;
  }

  lemma AbandonManifest(s: Scheduler, c: nat)
    ensures Abandon(s, c).manifest == s.manifest
  {
  }

  lemma RefusedExclusive(s: Scheduler, c: nat)
    requires Exclusive(s) && Idle(s, c) && Outstanding(s) < MAX_TOTAL_IN_FLIGHT
    ensures Exclusive(DispatchOrigin(s, c)) && NoDearer(s, DispatchOrigin(s, c))
    ensures Cost(DispatchOrigin(s, c), c) == 1
  {
    PlacingGrows(s, DispatchOrigin(s, c), c, 0);
    GrowsExclusive(s, DispatchOrigin(s, c));
  }

  lemma DeliveredExclusive(s: Scheduler, c: nat, buffer: Bytes, hash: Bytes -> Digest)
    requires Neat(s) && Exclusive(s) && c in s.inFlight.vals
    ensures var t := Delivered(s, c, buffer, hash);
      && Exclusive(t)
      && (forall d: nat :: d != c ==> Cost(t, d) <= Cost(s, d))
      && Cost(t, c) <= Cost(s, c) + (if c in s.manifest.expected then -1 else 3)
  {
    hide Neat, Exclusive, Abandon, Cost, Took, DispatchOrigin, Outstanding;
    AbandonExclusive(s, c);
    AbandonCost(s, c);
    var b := Abandon(s, c);
    AbandonManifest(s, c);
    if Authentic(s.manifest, hash, c, buffer) {
      TookExclusive(b, c, buffer, true);
    } else {
      RefusedExclusive(b, c);
    }
  }

  lemma DropExclusive(s: Scheduler, i: nat)
    requires Exclusive(s) && Waits(s, i)
    ensures var c := s.tasks[i].chunk;
      var t := Drop(s, i).(atOrigin := s.atOrigin - {c});
      && Exclusive(t) && !IsOutstanding(t, c)
      && (forall d: nat :: d != c ==> Cost(t, d) == Cost(s, d))
      && Cost(s, c) == 1 && Cost(t, c) == 5
  {
    var c := s.tasks[i].chunk;
    var t := Drop(s, i).(atOrigin := s.atOrigin - {c});
    forall j | 0 <= j < |t.tasks| ensures t.tasks[j] == s.tasks[if j < i then j else j + 1] {
    }
  }

  lemma AnsweredExclusive(s: Scheduler, i: nat, data: Bytes, hash: Bytes -> Digest)
    requires Exclusive(s) && Waits(s, i)
    ensures var t, c := Answered(s, i, data, hash), s.tasks[i].chunk;
      && Exclusive(t)
      && (forall d: nat :: d != c ==> Cost(t, d) <= Cost(s, d))
      && Cost(t, c) == Cost(s, c) + (if Authentic(s.manifest, hash, c, data) then -1 else 4)
  {
    hide Exclusive;
    DropExclusive(s, i);
    var c := s.tasks[i].chunk;
    var t := Drop(s, i).(atOrigin := s.atOrigin - {c});
    TookExclusive(t, c, data, false);
  }
}
