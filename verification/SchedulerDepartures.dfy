/** What becomes of the requests when a peer leaves or the download is stopped. */
module SchedulerDepartures {
  import opened Bytes
  import opened OrderedMaps
  import opened SchedulerModel
  import opened SchedulerPass
  import opened SchedulerRetries
  import opened SchedulerSafety

  // ---------------------------------------------------------------- a peer leaves

  /** The chunk has the same place and the same request. */
  ghost predicate SamePlace(s: Scheduler, t: Scheduler, c: nat) {
    && (c in t.inFlight.vals <==> c in s.inFlight.vals)
    && (c in s.inFlight.vals ==> t.inFlight.vals[c] == s.inFlight.vals[c])
    && (c in t.atOrigin <==> c in s.atOrigin)
  }

  lemma AbandonElsewhere(s: Scheduler, c: nat, d: nat)
    requires d != c
    ensures var b := Abandon(s, c);
      SamePlace(s, b, d) && b.have == s.have && b.peers == s.peers && b.choked == s.choked
  {
  }

  lemma AskedElsewhere(s: Scheduler, c: nat, r: Request, d: nat)
    requires d != c
    ensures SamePlace(s, s.(inFlight := s.inFlight.Set(c, r)), d) && SamePlace(s, DispatchOrigin(s, c), d)
    ensures DispatchOrigin(s, c) == s.(atOrigin := DispatchOrigin(s, c).atOrigin, tasks := DispatchOrigin(s, c).tasks)
  {
  }

  lemma PlacedElsewhere(s: Scheduler, t: Scheduler, c: nat, retries: nat, d: nat)
    requires Placed(Abandon(s, c), t, c, retries) && d != c
    ensures SamePlace(s, t, d) && t.have == s.have && t.peers == s.peers && t.choked == s.choked
  {
    hide Offers, Abandon, DispatchOrigin;
    AbandonElsewhere(s, c, d);
    AskedElsewhere(Abandon(s, c), c, if c in t.inFlight.vals then t.inFlight.vals[c] else Request("", 0), d);
  }

  lemma ElsewhereSame(s: Scheduler, c: nat, retries: nat, sends: Sends, d: nat)
    requires d != c
    ensures var t := ScheduleChunk(Abandon(s, c), c, retries, sends);
      SamePlace(s, t, d) && t.have == s.have && t.peers == s.peers && t.choked == s.choked
  {
    hide ScheduleChunk, Placed;
    if c in s.have {
      PossessedStays(Abandon(s, c), c, retries, sends);
    } else {
      ChunkPlaces(Abandon(s, c), c, retries, sends);
      PlacedElsewhere(s, ScheduleChunk(Abandon(s, c), c, retries, sends), c, retries, d);
    }
  }

  lemma {:induction false} RequeueElsewhere(s: Scheduler, lost: OrderedMap<nat, Request>, p: PeerId, i: nat, k: nat,
                                            sends: Sends, d: nat)
    requires i <= k <= |lost.keys| && forall j :: i <= j < k && lost.vals[lost.keys[j]].peer == p ==> lost.keys[j] != d
    ensures var t, u := Requeue(s, lost, p, i, sends), Requeue(s, lost, p, k, sends);
      SamePlace(t, u, d) && u.have == t.have && u.peers == t.peers && u.choked == t.choked
    decreases k
  {
    hide ScheduleChunk, Abandon;
    if i == k {
    } else {
      RequeueElsewhere(s, lost, p, i, k - 1, sends, d);
      var c := lost.keys[k - 1];
      if lost.vals[c].peer == p {
        ElsewhereSame(Requeue(s, lost, p, k - 1, sends), c, lost.vals[c].retries + 1, sends, d);
      }
    }
  }

  /**
   * The request for `c`, made of `p` after `r` retries, was replaced: by one of another peer at the
   * first later attempt that succeeded, or, where that peer took none of the attempts left or
   * nobody else offers the chunk, by a fetch.
   */
  ghost predicate Replaced(s: Scheduler, t: Scheduler, c: nat, p: PeerId, r: nat, sends: Sends) {
    if c in t.inFlight.vals then
      var q := t.inFlight.vals[c];
      && q.peer != p && Offers(s, q.peer, c) && r < q.retries <= 2 && sends(c, q.peer, q.retries)
      && forall j: nat :: r < j < q.retries ==> !sends(c, q.peer, j)
    else
      && c in t.atOrigin
      && (|| (forall q :: Offers(s, q, c) ==> q == p)
          || exists q :: q != p && Offers(s, q, c) && forall j: nat :: r < j <= 2 ==> !sends(c, q, j))
  }

  lemma OthersOffer(s: Scheduler, t: Scheduler, c: nat, p: PeerId)
    requires t.peers == Forget(s, p).peers && t.choked == Forget(s, p).choked
    ensures forall q :: Offers(t, q, c) <==> q != p && Offers(s, q, c)
  {
  }

  lemma AbandonRemoves(s: Scheduler, c: nat)
    ensures c !in Abandon(s, c).inFlight.vals
  {
  }

  lemma CallReplaces(s: Scheduler, t: Scheduler, c: nat, p: PeerId, r: nat, sends: Sends)
    requires c !in t.have && t.peers == Forget(s, p).peers && t.choked == Forget(s, p).choked
    ensures var u := ScheduleChunk(Abandon(t, c), c, r + 1, sends);
      && Replaced(s, u, c, p, r, sends)
      && (c in u.inFlight.vals ==> FirstChoice(Abandon(t, c), c, u.inFlight.vals[c].peer))
  {
    hide ScheduleChunk, ByLoad, Offers, Eligible, FirstChoice, Abandon, Forget;
    var b := Abandon(t, c);
    AbandonElsewhere(t, c, c + 1);
    AbandonRemoves(t, c);
    OthersOffer(s, b, c, p);
    RetriesAskOnePeer(b, c, r + 1, sends);
    if Eligible(b, c) != [] {
      LeastLoaded(b, Eligible(b, c));
      HeadExactly(b, c, ByLoad(b, Eligible(b, c))[0]);
    } else {
      forall q | Offers(s, q, c) ensures q == p {
        assert q !in Eligible(b, c);
      }
    }
  }

  lemma SamePlaceReplaced(s: Scheduler, t: Scheduler, u: Scheduler, c: nat, p: PeerId, r: nat, sends: Sends)
    requires Replaced(s, t, c, p, r, sends) && SamePlace(t, u, c)
    ensures Replaced(s, u, c, p, r, sends)
  {
  }

  lemma GrowthReplaced(s: Scheduler, t: Scheduler, u: Scheduler, c: nat, p: PeerId, r: nat, sends: Sends)
    requires Replaced(s, t, c, p, r, sends) && Grows(t, u)
    ensures Replaced(s, u, c, p, r, sends)
    ensures c in u.inFlight.vals ==> c in t.inFlight.vals && u.inFlight.vals[c] == t.inFlight.vals[c]
  {
    hide NewFetches, Offers;
  }

  lemma NoneRequeued(f: Scheduler, lost: OrderedMap<nat, Request>, p: PeerId, sends: Sends)
    ensures Requeue(f, lost, p, 0, sends) == f
  {
  }

  lemma RequeueTurnIs(f: Scheduler, lost: OrderedMap<nat, Request>, p: PeerId, k: nat, sends: Sends)
    requires k < |lost.keys| && lost.vals[lost.keys[k]].peer == p
    ensures var c := lost.keys[k];
      Requeue(f, lost, p, k + 1, sends) ==
        ScheduleChunk(Abandon(Requeue(f, lost, p, k, sends), c), c, lost.vals[c].retries + 1, sends)
  {
    hide ScheduleChunk, Abandon;
  }

  /** Earlier turns change no peer and no data, and nothing at all if they are of other peers' requests. */
  lemma {:induction false} BeforeItsTurn(f: Scheduler, lost: OrderedMap<nat, Request>, p: PeerId, k: nat, sends: Sends)
    requires k <= |lost.keys|
    ensures var t := Requeue(f, lost, p, k, sends);
      && t.have == f.have && t.peers == f.peers && t.choked == f.choked
      && ((forall j :: 0 <= j < k ==> lost.vals[lost.keys[j]].peer != p) ==> t == f)
  {
    hide ScheduleChunk, Abandon;
    if k == 0 {
    } else {
      BeforeItsTurn(f, lost, p, k - 1, sends);
      var c := lost.keys[k - 1];
      if lost.vals[c].peer == p {
        ElsewhereSame(Requeue(f, lost, p, k - 1, sends), c, lost.vals[c].retries + 1, sends, c + 1);
      }
    }
  }

  lemma LostReplaced(s: Scheduler, p: PeerId, k: nat, sends: Sends)
    requires k < |s.inFlight.keys| && s.inFlight.vals[s.inFlight.keys[k]].peer == p
    requires s.inFlight.keys[k] !in s.have
    ensures var c := s.inFlight.keys[k];
      var t := Requeue(Forget(s, p), s.inFlight, p, |s.inFlight.keys|, sends);
      && Replaced(s, t, c, p, s.inFlight.vals[c].retries, sends)
      && (c in t.inFlight.vals && (forall j :: 0 <= j < k ==> s.inFlight.vals[s.inFlight.keys[j]].peer != p) ==>
            FirstChoice(Abandon(Forget(s, p), c), c, t.inFlight.vals[c].peer))
  {
    hide ScheduleChunk, Replaced, FirstChoice, Abandon, Requeue;
    var f, lost, n, c := Forget(s, p), s.inFlight, |s.inFlight.keys|, s.inFlight.keys[k];
    NoneRequeued(f, lost, p, sends);
    BeforeItsTurn(f, lost, p, k, sends);
    var t := Requeue(f, lost, p, k, sends);
    CallReplaces(s, t, c, p, lost.vals[c].retries, sends);
    RequeueTurnIs(f, lost, p, k, sends);
    assert forall j :: k < j < n ==> lost.keys[j] != c;
    RequeueElsewhere(f, lost, p, k + 1, n, sends, c);
    SamePlaceReplaced(s, Requeue(f, lost, p, k + 1, sends), Requeue(f, lost, p, n, sends), c, p,
                      lost.vals[c].retries, sends);
  }

  /** A pass grows; so does nothing. */
  lemma NextGrows(s: Scheduler, sends: Sends)
    ensures var t := ScheduleIfRunning(s, sends);
      exists u :: Grows(s, u) && u.inFlight == t.inFlight && u.atOrigin == t.atOrigin
  {
    hide Pass, Grows;
    PassGrows(s, sends);
    GrowsReflexive(s);
  }

  lemma GrowthKeeps(t: Scheduler, u: Scheduler, c: nat)
    requires Grows(t, u)
    ensures c in t.inFlight.vals ==> c in u.inFlight.vals && u.inFlight.vals[c] == t.inFlight.vals[c]
    ensures c in t.have && c !in t.inFlight.vals ==> c !in u.inFlight.vals
  {
    hide NewFetches, Offers;
  }

  lemma PossessedLost(f: Scheduler, lost: OrderedMap<nat, Request>, p: PeerId, k: nat, sends: Sends)
    requires k < |lost.keys| && lost.vals[lost.keys[k]].peer == p && lost.keys[k] in f.have
    ensures var t := Requeue(f, lost, p, |lost.keys|, sends);
      t.have == f.have && lost.keys[k] !in t.inFlight.vals
  {
    hide ScheduleChunk, Requeue;
    var c, n := lost.keys[k], |lost.keys|;
    BeforeItsTurn(f, lost, p, k, sends);
    RequeueTurnIs(f, lost, p, k, sends);
    PossessedStays(Abandon(Requeue(f, lost, p, k, sends), c), c, lost.vals[c].retries + 1, sends);
    assert forall j :: k < j < n ==> lost.keys[j] != c;
    RequeueElsewhere(f, lost, p, k + 1, n, sends, c);
  }

  lemma ReplacedBy(s: Scheduler, t: Scheduler, u: Scheduler, c: nat, p: PeerId, r: nat, sends: Sends)
    requires Replaced(s, t, c, p, r, sends) && u.inFlight == t.inFlight && u.atOrigin == t.atOrigin
    ensures Replaced(s, u, c, p, r, sends)
  {
  }

  /**
   * When a peer leaves, each of its requests for missing chunks is replaced, with at least one
   * retry more than it had and never more than two, and the requests of others stay. The oldest is
   * replaced first, by a request of whoever is the first choice without the departed peer.
   */
  lemma DepartureReplaces(s: Scheduler, p: PeerId, k: nat, sends: Sends)
    requires k < |s.inFlight.keys|
    ensures var c, t := s.inFlight.keys[k], RemovePeer(s, p, sends);
      var r := s.inFlight.vals[c];
      if r.peer != p then c in t.inFlight.vals && t.inFlight.vals[c] == r
      else if c in s.have then c !in t.inFlight.vals
      else
        && Replaced(s, t, c, p, r.retries, sends)
        && (c in t.inFlight.vals && (forall j :: 0 <= j < k ==> s.inFlight.vals[s.inFlight.keys[j]].peer != p) ==>
              FirstChoice(Abandon(Forget(s, p), c), c, t.inFlight.vals[c].peer))
  {
    hide Requeue, Replaced, FirstChoice, Abandon, ScheduleIfRunning, Grows;
    var f, n, c := Forget(s, p), |s.inFlight.keys|, s.inFlight.keys[k];
    var t := Requeue(f, s.inFlight, p, n, sends);
    NextGrows(t, sends);
    var after := RemovePeer(s, p, sends);
    var u :| Grows(t, u) && u.inFlight == after.inFlight && u.atOrigin == after.atOrigin;
    GrowthKeeps(t, u, c);
    if s.inFlight.vals[c].peer != p {
      NoneRequeued(f, s.inFlight, p, sends);
      assert forall j :: 0 <= j < n && s.inFlight.keys[j] == c ==> j == k;
      RequeueElsewhere(f, s.inFlight, p, 0, n, sends, c);
    } else if c in s.have {
      PossessedLost(f, s.inFlight, p, k, sends);
    } else {
      LostReplaced(s, p, k, sends);
      GrowthReplaced(s, t, u, c, p, s.inFlight.vals[c].retries, sends);
      ReplacedBy(s, u, after, c, p, s.inFlight.vals[c].retries, sends);
    }
  }

  // ---------------------------------------------------------------- the download is stopped

  /**
   * After `stop` nothing is in flight, collected or marked at the origin, and the scheduler does
   * not run; data, peers and suspended tasks are as they were. Blocks and timers that come later
   * change nothing, and neither does another `stop`.
   */
  lemma StopClears(s: Scheduler, sends: Sends, hash: Bytes -> Digest, c: nat, offset: nat, total: nat, data: Bytes)
    ensures var t := Step(s, Input(Stopped, sends), hash);
      && !t.running && t.inFlight.keys == [] && t.inFlight.vals == map[] && t.reassembly == map[] && t.atOrigin == {}
      && t.have == s.have && t.store == s.store && t.tasks == s.tasks && t.log == s.log
      && t.peers == s.peers && t.choked == s.choked && t.manifest == s.manifest
      && Step(t, Input(GotPiece(c, offset, total, data), sends), hash) == t
      && Step(t, Input(TimedOut(c), sends), hash) == t && Step(t, Input(Stopped, sends), hash) == t
  {
  }
}
