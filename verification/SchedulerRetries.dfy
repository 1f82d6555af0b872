/** Whom a retry asks. */
module SchedulerRetries {
  import opened OrderedMaps
  import opened SchedulerModel
  import opened SchedulerPass

  ghost predicate InOrder(ps: seq<PeerId>, q: PeerId, p: PeerId) {
    exists i, j :: 0 <= i < j < |ps| && ps[i] == q && ps[j] == p
  }

  /** `q` has been known for longer than `p`. */
  ghost predicate KnownEarlier(s: Scheduler, q: PeerId, p: PeerId) {
    InOrder(s.peers.keys, q, p)
  }

  /**
   * `p` is first in line for the chunk: it offers it, nobody who offers it carries fewer
   * requests, and nobody known for longer carries as few.
   */
  ghost predicate FirstChoice(s: Scheduler, c: nat, p: PeerId) {
    && Offers(s, p, c)
    && (forall q :: Offers(s, q, c) ==> Load(s, p) <= Load(s, q))
    && (forall q :: Offers(s, q, c) && KnownEarlier(s, q, p) ==> Load(s, p) < Load(s, q))
  }

  lemma InOrderMore(ps: seq<PeerId>, last: PeerId, q: PeerId, p: PeerId)
    ensures InOrder(ps, q, p) ==> InOrder(ps + [last], q, p)
    ensures q in ps ==> InOrder(ps + [last], q, last)
  {
    var more := ps + [last];
    if InOrder(ps, q, p) {
      var i, j :| 0 <= i < j < |ps| && ps[i] == q && ps[j] == p;
      assert more[i] == q && more[j] == p;
    }
    if q in ps {
      var i :| 0 <= i < |ps| && ps[i] == q;
      assert more[i] == q && more[|ps|] == last;
    }
  }

  /** Those who offer a chunk are listed in the order in which they became known. */
  lemma {:induction false} OfferingInOrder(s: Scheduler, ps: seq<PeerId>, c: nat, i: nat, j: nat)
    requires i < j < |Offering(s, ps, c)|
    ensures InOrder(ps, Offering(s, ps, c)[i], Offering(s, ps, c)[j])
  {
    hide Offers, InOrder;
    var front, last := ps[..|ps| - 1], ps[|ps| - 1];
    var before := Offering(s, front, c);
    assert ps == front + [last];
    if j < |before| {
      OfferingInOrder(s, front, c, i, j);
      InOrderMore(front, last, before[i], before[j]);
    } else {
      assert before[i] in before;
      InOrderMore(front, last, before[i], last);
    }
  }

  lemma OrderIsStrict(s: Scheduler, q: PeerId, p: PeerId)
    requires KnownEarlier(s, q, p)
    ensures q != p && !KnownEarlier(s, p, q)
  {
    assert Distinct(s.peers.keys);
  }

  lemma {:induction false} FirstLeastIndex(s: Scheduler, ps: seq<PeerId>) returns (at: nat)
    requires ps != []
    ensures at < |ps|
    ensures forall j :: 0 <= j < |ps| ==> Load(s, ps[at]) <= Load(s, ps[j])
    ensures forall j :: 0 <= j < at ==> Load(s, ps[at]) < Load(s, ps[j])
  {
    hide Load;
    var n := |ps| - 1;
    at := n;
    if n == 0 {
    } else {
      var least := FirstLeastIndex(s, ps[..n]);
      assert forall j :: 0 <= j < n ==> ps[..n][j] == ps[j];
      at := if Load(s, ps[n]) < Load(s, ps[least]) then n else least;
    }
  }

  lemma ListedInOrder(s: Scheduler, c: nat, i: nat, j: nat)
    requires i < j < |Eligible(s, c)|
    ensures KnownEarlier(s, Eligible(s, c)[i], Eligible(s, c)[j])
  {
    OfferingInOrder(s, s.peers.keys, c, i, j);
  }

  lemma NotBeforeItself(s: Scheduler, p: PeerId)
    ensures !KnownEarlier(s, p, p)
  {
    assert Distinct(s.peers.keys);
  }

  /** The head of the sorted list is the first choice, whoever that is. */
  lemma HeadExactly(s: Scheduler, c: nat, p: PeerId)
    requires Eligible(s, c) != []
    ensures ByLoad(s, Eligible(s, c))[0] == p <==> FirstChoice(s, c, p)
  {
    hide Load, ByLoad, Offers, KnownEarlier;
    var ps := Eligible(s, c);
    var at := FirstLeastIndex(s, ps);
    FirstLeast(s, ps, at);
    assert ps[at] in ps;
    forall q | Offers(s, q, c)
      ensures Load(s, ps[at]) <= Load(s, q)
      ensures KnownEarlier(s, q, ps[at]) ==> Load(s, ps[at]) < Load(s, q)
      ensures q != ps[at] && Load(s, q) == Load(s, ps[at]) ==> KnownEarlier(s, ps[at], q)
    {
      assert q in ps;
      var j: nat :| j < |ps| && ps[j] == q;
      if j > at {
        ListedInOrder(s, c, at, j);
        OrderIsStrict(s, ps[at], q);
      } else if j == at {
        NotBeforeItself(s, q);
      }
    }
  }

  lemma NobodyEligible(s: Scheduler, c: nat, p: PeerId)
    requires FirstChoice(s, c, p)
    ensures Eligible(s, c) != []
  {
    assert p in Eligible(s, c);
  }

  /** A pass leaves alone what is possessed or asked for. */
  lemma NextKeepsRequest(s: Scheduler, c: nat, sends: Sends)
    requires c in s.have || IsOutstanding(s, c)
    ensures var t := ScheduleNext(s, sends);
      (c in t.inFlight.vals <==> c in s.inFlight.vals)
      && (c in s.inFlight.vals ==> t.inFlight.vals[c] == s.inFlight.vals[c])
  {
    hide Pass;
    PassGrows(s, sends);
  }

  /**
   * After a timeout the chunk is asked of the same peer again, exactly when: it is still missing,
   * and the peer, with the request that timed out no longer counted, is the first choice, and
   * takes the request within the retries that are left.
   */
  lemma TimeoutAsksSamePeerExactly(s: Scheduler, c: nat, sends: Sends)
    requires c in s.inFlight.vals
    ensures var r, t := s.inFlight.vals[c], HandleTimeout(s, c, sends);
      c in t.inFlight.vals && t.inFlight.vals[c].peer == r.peer <==>
        && c !in s.have && FirstChoice(Abandon(s, c), c, r.peer)
        && exists k: nat :: r.retries < k <= REQUEST_RETRIES && sends(c, r.peer, k)
  {
    hide ScheduleChunk, ScheduleNext, FirstChoice, ByLoad, Eligible;
    var r, b := s.inFlight.vals[c], Abandon(s, c);
    var t := ScheduleChunk(b, c, r.retries + 1, sends);
    var ps := Eligible(b, c);
    if FirstChoice(b, c, r.peer) {
      NobodyEligible(b, c, r.peer);
    }
    if ps != [] {
      HeadExactly(b, c, r.peer);
    }
    if c in s.have {
      PossessedStays(b, c, r.retries + 1, sends);
    } else {
      RetriesAskOnePeer(b, c, r.retries + 1, sends);
      assert t.have == s.have;
      assert c in t.inFlight.vals || c in t.atOrigin;
    }
    NextKeepsRequest(t, c, sends);
  }

  /** `p` is asked at the first attempt after `r` that it takes, of two in all, and else the origin. */
  ghost predicate AskedAfter(t: Scheduler, c: nat, p: PeerId, r: nat, sends: Sends) {
    if c in t.inFlight.vals then
      var q := t.inFlight.vals[c];
      && q.peer == p && r < q.retries <= 2 && sends(c, p, q.retries)
      && forall j: nat :: r < j < q.retries ==> !sends(c, p, j)
    else c in t.atOrigin && forall j: nat :: r < j <= 2 ==> !sends(c, p, j)
  }

  lemma SomebodyEligible(s: Scheduler, c: nat)
    ensures Eligible(s, c) == [] || exists q :: Offers(s, q, c)
  {
    hide Offers;
    if Eligible(s, c) != [] {
      assert Offers(s, Eligible(s, c)[0], c);
    }
  }

  lemma CallAsks(s: Scheduler, c: nat, p: PeerId, r: nat, sends: Sends)
    requires c !in s.have && c !in s.inFlight.vals
    ensures FirstChoice(s, c, p) ==> AskedAfter(ScheduleChunk(s, c, r + 1, sends), c, p, r, sends)
    ensures (forall q :: !Offers(s, q, c)) ==>
      c in ScheduleChunk(s, c, r + 1, sends).atOrigin && c !in ScheduleChunk(s, c, r + 1, sends).inFlight.vals
  {
    hide ScheduleChunk, FirstChoice, ByLoad, Eligible, Offers;
    RetriesAskOnePeer(s, c, r + 1, sends);
    SomebodyEligible(s, c);
    if FirstChoice(s, c, p) {
      NobodyEligible(s, c, p);
      HeadExactly(s, c, p);
    }
  }

  lemma AskedStays(t: Scheduler, u: Scheduler, c: nat, p: PeerId, r: nat, sends: Sends)
    requires AskedAfter(t, c, p, r, sends)
    requires c in u.inFlight.vals <==> c in t.inFlight.vals
    requires c in t.inFlight.vals ==> u.inFlight.vals[c] == t.inFlight.vals[c]
    requires c in t.atOrigin ==> c in u.atOrigin
    ensures AskedAfter(u, c, p, r, sends)
  {
  }

  lemma NextKeepsPlace(s: Scheduler, c: nat, sends: Sends)
    requires c in s.have || IsOutstanding(s, c)
    ensures c in s.atOrigin ==> c in ScheduleNext(s, sends).atOrigin
  {
    hide Pass;
    PassGrows(s, sends);
  }

  lemma SameOffers(s: Scheduler, c: nat)
    ensures forall q :: Offers(Abandon(s, c), q, c) <==> Offers(s, q, c)
    ensures Abandon(s, c).have == s.have && c !in Abandon(s, c).inFlight.vals
  {
  }

  lemma CallPlaces(s: Scheduler, c: nat, retries: nat, sends: Sends)
    requires c !in s.have
    ensures IsOutstanding(ScheduleChunk(s, c, retries, sends), c)
  {
    hide ScheduleChunk, Offers;
    ChunkPlaces(s, c, retries, sends);
  }

  /**
   * After a timeout a missing chunk is asked of whoever is the first choice then, and goes to the
   * origin if that peer takes no attempt that is left or nobody offers it; a possessed one is let go.
   */
  lemma TimeoutReplaces(s: Scheduler, c: nat, sends: Sends, p: PeerId)
    requires c in s.inFlight.vals
    ensures var r, b, t := s.inFlight.vals[c].retries, Abandon(s, c), HandleTimeout(s, c, sends);
      && (c in s.have ==> c !in t.inFlight.vals)
      && (c !in s.have && FirstChoice(b, c, p) ==> AskedAfter(t, c, p, r, sends))
      && (c !in s.have && (forall q :: !Offers(s, q, c)) ==> c in t.atOrigin && c !in t.inFlight.vals)
  {
    hide ScheduleChunk, ScheduleNext, FirstChoice, AskedAfter, Offers, Abandon;
    var r, b := s.inFlight.vals[c].retries, Abandon(s, c);
    var t := ScheduleChunk(b, c, r + 1, sends);
    SameOffers(s, c);
    if c in s.have {
      PossessedStays(b, c, r + 1, sends);
    } else {
      CallPlaces(b, c, r + 1, sends);
      CallAsks(b, c, p, r, sends);
    }
    NextKeepsRequest(t, c, sends);
    NextKeepsPlace(t, c, sends);
    if AskedAfter(t, c, p, r, sends) {
      AskedStays(t, ScheduleNext(t, sends), c, p, r, sends);
    }
  }

  // ---------------------------------------------------------------- whom a pass asks

  function Chosen(s: Scheduler, ps: seq<PeerId>): (p: PeerId)
    requires ps != []
    ensures p in ps
  {
    if |ps| == 1 then ps[0]
    else
      var last, front := ps[|ps| - 1], Chosen(s, ps[..|ps| - 1]);
      if Load(s, last) < Load(s, front) then last else front
  }

  lemma {:induction false} ChosenAt(s: Scheduler, ps: seq<PeerId>) returns (at: nat)
    requires ps != []
    ensures at < |ps| && ps[at] == Chosen(s, ps)
    ensures forall j :: 0 <= j < |ps| ==> Load(s, ps[at]) <= Load(s, ps[j])
    ensures forall j :: 0 <= j < at ==> Load(s, ps[at]) < Load(s, ps[j])
  {
    hide Load;
    var n := |ps| - 1;
    at := n;
    if n == 0 {
    } else {
      var least := ChosenAt(s, ps[..n]);
      assert forall j :: 0 <= j < n ==> ps[..n][j] == ps[j];
      at := if Load(s, ps[n]) < Load(s, ps[least]) then n else least;
    }
  }

  lemma ChosenIsHead(s: Scheduler, ps: seq<PeerId>)
    requires ps != []
    ensures ByLoad(s, ps) != [] && ByLoad(s, ps)[0] == Chosen(s, ps)
  {
    hide Load, ByLoad, Chosen;
    var at := ChosenAt(s, ps);
    FirstLeast(s, ps, at);
  }

  lemma AllBusy(s: Scheduler, ps: seq<PeerId>)
    requires BelowLimit(s, ps) == []
    ensures forall p :: p in ps ==> Load(s, p) >= MAX_IN_FLIGHT_PER_PEER
  {
    hide Load;
    forall p | p in ps ensures Load(s, p) >= MAX_IN_FLIGHT_PER_PEER {
      assert p !in BelowLimit(s, ps);
    }
  }

  lemma ChosenMore(s: Scheduler, ps: seq<PeerId>, p: PeerId)
    ensures Chosen(s, ps + [p]) == if ps == [] || Load(s, p) < Load(s, Chosen(s, ps)) then p else Chosen(s, ps)
  {
    hide Load;
    assert (ps + [p])[..|ps|] == ps;
  }

  /** Leaving out the peers at the limit does not change who comes first, while somebody is left. */
  lemma {:induction false} FreeChosen(s: Scheduler, ps: seq<PeerId>)
    requires BelowLimit(s, ps) != []
    ensures ps != [] && Chosen(s, ps) == Chosen(s, BelowLimit(s, ps))
  {
    hide Load, Chosen, BelowLimit;
    NothingListed(s);
    var front, last := ps[..|ps| - 1], ps[|ps| - 1];
    assert ps == front + [last];
    var free := BelowLimit(s, front);
    BelowLimitMore(s, front, last);
    ChosenMore(s, front, last);
    ChosenMore(s, free, last);
    if free == [] {
      AllBusy(s, front);
    } else {
      FreeChosen(s, front);
      assert Chosen(s, free) in free;
    }
  }

  lemma {:induction false} SameOffering(s: Scheduler, t: Scheduler, ps: seq<PeerId>, c: nat)
    requires t.peers == s.peers && t.choked == s.choked
    ensures Offering(t, ps, c) == Offering(s, ps, c)
  {
    if ps == [] {
    } else {
      SameOffering(s, t, ps[..|ps| - 1], c);
    }
  }

  lemma SamePeersOffer(s: Scheduler, t: Scheduler, c: nat)
    requires t.peers == s.peers && t.choked == s.choked
    ensures Eligible(t, c) == Eligible(s, c)
  {
    SameOffering(s, t, s.peers.keys, c);
  }

  /** A turn of the pass with a free holder is a first attempt to place the chunk. */
  lemma EntryPlaces(s: Scheduler, t: Scheduler, c: nat, sends: Sends)
    requires Grows(s, t) && Idle(t, c) && BelowLimit(t, Eligible(s, c)) != []
    ensures DispatchEntry(t, RarityOf(s, c), sends) == ScheduleChunk(t, c, 0, sends)
    ensures Eligible(t, c) != []
  {
    hide DispatchP2P, BelowLimit, ByLoad, Offering, Load, Chosen;
    SamePeersOffer(s, t, c);
    var free := BelowLimit(t, Eligible(t, c));
    FreeChosen(t, Eligible(t, c));
    ChosenIsHead(t, free);
    ChosenIsHead(t, Eligible(t, c));
  }

  /** `u` asks `p` for the chunk at the first of three attempts that succeeds, or else the origin. */
  ghost predicate AskedOrFetched(u: Scheduler, c: nat, p: PeerId, sends: Sends) {
    && (c in u.inFlight.vals <==> sends(c, p, 0) || sends(c, p, 1) || sends(c, p, 2))
    && (c in u.atOrigin <==> c !in u.inFlight.vals)
    && (c in u.inFlight.vals ==>
          u.inFlight.vals[c] == Request(p, if sends(c, p, 0) then 0 else if sends(c, p, 1) then 1 else 2))
  }

  lemma FirstCall(t: Scheduler, c: nat, p: PeerId, sends: Sends)
    requires Idle(t, c) && Eligible(t, c) != [] && FirstChoice(t, c, p)
    ensures AskedOrFetched(ScheduleChunk(t, c, 0, sends), c, p, sends)
  {
    hide ScheduleChunk, Eligible, FirstChoice, ByLoad;
    HeadExactly(t, c, p);
    RetriesAskOnePeer(t, c, 0, sends);
  }

  lemma TurnIsEntry(s: Scheduler, es: seq<Rarity>, k: nat, sends: Sends)
    requires k < |es| && !Saturated(PeerPass(s, es, k, sends))
    ensures PeerPass(s, es, k + 1, sends) == DispatchEntry(PeerPass(s, es, k, sends), es[k], sends)
  {
  }

  lemma FreeHolder(s: Scheduler, t: Scheduler, c: nat, p: PeerId)
    requires Grows(s, t) && FirstChoice(t, c, p) && Load(t, p) < 2
    ensures BelowLimit(t, Eligible(s, c)) != []
  {
    hide Load;
    SamePeersOffer(s, t, c);
    assert p in Eligible(t, c);
    assert p in BelowLimit(t, Eligible(s, c));
  }

  lemma KeptByGrowth(t: Scheduler, u: Scheduler, c: nat, p: PeerId, sends: Sends)
    requires Grows(t, u) && AskedOrFetched(t, c, p, sends)
    ensures AskedOrFetched(u, c, p, sends)
  {
    hide NewFetches, Offers;
  }

  /**
   * What a pass asks for, it asks of the first choice at that moment: of the holders, one that
   * carries fewest requests, and of these the one known longest; and whoever it is, it is asked
   * up to three times before the chunk goes to the origin.
   */
  lemma PassAsksFirstChoice(s: Scheduler, k: nat, sends: Sends, p: PeerId)
    requires k < |AvailableFromPeers(s)|
    requires var t, c := PeerPass(s, AvailableFromPeers(s), k, sends), AvailableFromPeers(s)[k].chunk;
      !Saturated(t) && FirstChoice(t, c, p) && Load(t, p) < 2
    ensures AskedOrFetched(Pass(s, sends), AvailableFromPeers(s)[k].chunk, p, sends)
  {
    hide Pass, PeerPass, AvailableFromPeers, Grows, RarityOf, Eligible, FirstChoice, Load, ScheduleChunk, BelowLimit,
      DispatchEntry, ByLoad, Saturated, Progress, AskedOrFetched;
    AvailableLists(s);
    var es := AvailableFromPeers(s);
    var t, c := PeerPass(s, es, k, sends), es[k].chunk;
    PeerPassGrows(s, es, k, sends);
    StillIdle(s, t, es, k);
    ProgressGrows(s, t, es, k);
    TurnIsEntry(s, es, k, sends);
    FreeHolder(s, t, c, p);
    EntryPlaces(s, t, c, sends);
    FirstCall(t, c, p, sends);
    PassBehindPeers(s, k + 1, sends);
    KeptByGrowth(PeerPass(s, es, k + 1, sends), Pass(s, sends), c, p, sends);
  }
}
