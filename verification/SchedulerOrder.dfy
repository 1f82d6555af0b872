/** In which order one scheduling pass considers the chunks. */
module SchedulerOrder {
  import opened Bitfields
  import opened OrderedMaps
  import opened SchedulerModel
  import opened SchedulerPass
  import Sorting

  // ---------------------------------------------------------------- rarity

  /** The known, unchoked peers that announced the chunk. */
  function Holders(s: Scheduler, c: nat): set<PeerId> {
    set p | p in s.peers.vals && (p in s.choked ==> !s.choked[p]) && s.peers.vals[p].Has(c)
  }

  lemma {:induction false} DistinctOffering(s: Scheduler, ps: seq<PeerId>, c: nat)
    requires Distinct(ps)
    ensures Distinct(Offering(s, ps, c))
  {
    if ps == [] {
    } else {
      var front := ps[..|ps| - 1];
      DistinctOffering(s, front, c);
      assert forall i :: 0 <= i < |Offering(s, front, c)| ==> Offering(s, front, c)[i] in front;
    }
  }

  lemma {:induction false} DistinctCount<T>(xs: seq<T>, ys: set<T>)
    requires Distinct(xs) && forall x :: x in xs <==> x in ys
    ensures |xs| == |ys|
  {
    if xs == [] {
      assert ys == {};
    } else {
      var n := |xs| - 1;
      assert forall x :: x in xs[..n] <==> x in ys - {xs[n]};
      DistinctCount(xs[..n], ys - {xs[n]});
    }
  }

  /** A chunk is as rare as it has holders. */
  lemma RarityCounts(s: Scheduler, c: nat)
    ensures RarityOf(s, c).chunk == c && RarityOf(s, c).rarity == |Holders(s, c)|
    ensures forall p :: Offers(s, p, c) <==> p in Holders(s, c)
  {
    DistinctOffering(s, s.peers.keys, c);
    DistinctCount(Eligible(s, c), Holders(s, c));
  }

  // ---------------------------------------------------------------- lists in order

  ghost predicate ByIndex(es: seq<Rarity>) {
    forall i, j :: 0 <= i < j < |es| ==> es[i].chunk < es[j].chunk
  }

  lemma {:induction false} CandidatesAscend(s: Scheduler, cs: seq<nat>)
    requires StrictlyAscending(cs)
    ensures StrictlyAscending(NotOutstanding(s, cs))
  {
    if cs == [] {
    } else {
      var front, last := cs[..|cs| - 1], cs[|cs| - 1];
      CandidatesAscend(s, front);
      forall i | 0 <= i < |NotOutstanding(s, front)| ensures NotOutstanding(s, front)[i] < last {
        assert NotOutstanding(s, front)[i] in front;
      }
    }
  }

  lemma {:induction false} SelectByIndex(es: seq<Rarity>, available: bool)
    requires ByIndex(es)
    ensures ByIndex(Select(es, available))
    ensures forall e :: e in Select(es, available) ==> e in es
  {
    if es == [] {
    } else {
      var front, last := es[..|es| - 1], es[|es| - 1];
      SelectByIndex(front, available);
      var r := Select(front, available);
      forall i | 0 <= i < |r| ensures r[i].chunk < last.chunk {
        assert r[i] in front;
      }
      assert forall e :: e in front ==> e in es;
    }
  }

  lemma SelectionByIndex(s: Scheduler, available: bool)
    ensures ByIndex(Select(RarityMap(s, Candidates(s)), available))
  {
    hide RarityOf;
    ListsAscend(s.have, s.manifest.total);
    CandidatesAscend(s, MissingBelow(s.have, s.manifest.total));
    var cs := Candidates(s);
    RarityMapAt(s, cs);
    forall i | 0 <= i < |cs| ensures RarityOf(s, cs[i]).chunk == cs[i] {
      OwnEntry(s, cs[i]);
    }
    SelectByIndex(RarityMap(s, cs), available);
  }

  /** Rarer, or equally rare and of a lower index. */
  predicate ComesBefore(a: Rarity, b: Rarity) {
    a.rarity < b.rarity || (a.rarity == b.rarity && a.chunk < b.chunk)
  }

  ghost predicate InTurn(es: seq<Rarity>) {
    forall i, j :: 0 <= i < j < |es| ==> ComesBefore(es[i], es[j])
  }

  lemma {:induction false} InsertInTurn(es: seq<Rarity>, e: Rarity)
    requires InTurn(es) && forall x :: x in es ==> x.chunk < e.chunk
    ensures var r := Sorting.Insert(es, e, RarityKey);
      InTurn(r) && forall x :: x in r <==> x in es || x == e
  {
    if es == [] || RarityKey(es[|es| - 1]) <= RarityKey(e) {
      assert forall i :: 0 <= i < |es| ==> es[i] in es;
    } else {
      var front, last := es[..|es| - 1], es[|es| - 1];
      assert forall x :: x in es <==> x in front || x == last;
      assert last in es;
      InsertInTurn(front, e);
      var r := Sorting.Insert(front, e, RarityKey);
      forall i | 0 <= i < |r| ensures ComesBefore(r[i], last) {
        assert r[i] in r;
      }
    }
  }

  lemma {:induction false} SortInTurn(es: seq<Rarity>)
    requires ByIndex(es)
    ensures InTurn(ByRarity(es)) && forall x :: x in ByRarity(es) <==> x in es
  {
    if es == [] {
    } else {
      var front, last := es[..|es| - 1], es[|es| - 1];
      assert forall x :: x in es <==> x in front || x == last;
      SortInTurn(front);
      InsertInTurn(ByRarity(front), last);
    }
  }

  /** Chunks with holders come rarest first, equally rare ones by index; the others come by index. */
  lemma TurnsTaken(s: Scheduler)
    ensures InTurn(AvailableFromPeers(s)) && ByIndex(UnavailableFromPeers(s))
  {
    SelectionByIndex(s, true);
    SelectionByIndex(s, false);
    SortInTurn(Select(RarityMap(s, Candidates(s)), true));
  }

  // ---------------------------------------------------------------- rarest first

  lemma LeftBehind(s: Scheduler, t: Scheduler, es: seq<Rarity>, k: nat, c: nat)
    requires Lists(s, es, true) && k < |es| && OnlyFrom(s, t, es, k)
    requires InTurn(es) && ComesBefore(es[k], RarityOf(s, c)) && Idle(s, c)
    ensures !IsOutstanding(t, c)
  {
    hide RarityOf;
  }

  lemma RoomForRarer(s: Scheduler, k: nat, c: nat, sends: Sends)
    requires k < |AvailableFromPeers(s)| && ComesBefore(AvailableFromPeers(s)[k], RarityOf(s, c))
    requires Idle(s, c) && IsOutstanding(Pass(s, sends), c)
    ensures !Saturated(PeerPass(s, AvailableFromPeers(s), k, sends))
  {
    hide Pass, PeerPass, AvailableFromPeers, Saturated, RarityOf, Eligible;
    AvailableLists(s);
    TurnsTaken(s);
    var es := AvailableFromPeers(s);
    if Saturated(PeerPass(s, es, k, sends)) {
      PassSaturated(s, es, k, sends);
      LeftBehind(s, Pass(s, sends), es, k, c);
    }
  }

  lemma FullMeans(s: Scheduler, t: Scheduler, c: nat)
    requires HoldersFull(s, t, c)
    ensures forall p :: p in Holders(s, c) ==> Load(t, p) >= 2
  {
    RarityCounts(s, c);
  }

  /**
   * Rarest first. If the pass asks for `c` but leaves a chunk `d` that has holders, fewer than `c`
   * or as many and a lower index, then at the turn of `d` there was room, and each unchoked holder
   * of `d` carried two requests.
   */
  lemma RarestFirst(s: Scheduler, c: nat, d: nat, sends: Sends)
    requires s.running && !Complete(s) && !Saturated(s) && Idle(s, c) && Idle(s, d)
    requires 0 < |Holders(s, d)|
    requires |Holders(s, d)| < |Holders(s, c)| || (|Holders(s, d)| == |Holders(s, c)| && d < c)
    requires IsOutstanding(ScheduleNext(s, sends), c) && !IsOutstanding(ScheduleNext(s, sends), d)
    ensures var es := AvailableFromPeers(s);
      exists k :: 0 <= k < |es| && es[k].chunk == d
        && !Saturated(PeerPass(s, es, k, sends)) && HoldersFull(s, PeerPass(s, es, k, sends), d)
    ensures forall p :: p in Holders(s, d) ==> Load(ScheduleNext(s, sends), p) >= 2
  {
    hide Pass, PeerPass, AvailableFromPeers, Grows, RarityOf, Eligible, IsOutstanding, HoldersFull, Idle, Holders;
    AvailableLists(s);
    RarityCounts(s, c);
    RarityCounts(s, d);
    var es := AvailableFromPeers(s);
    var k :| 0 <= k < |es| && es[k] == RarityOf(s, d);
    SkippedFor(s, es, k, sends);
    RoomForRarer(s, k, c, sends);
    StillFull(s, PeerPass(s, es, k, sends), Pass(s, sends), d);
    FullMeans(s, Pass(s, sends), d);
  }

  // ---------------------------------------------------------------- chunks nobody has

  lemma NotAskedYet(s: Scheduler, t: Scheduler, es: seq<Rarity>, j: nat)
    requires Listed(s, es) && j < |es| && Progress(s, t, es, j)
    ensures es[j].chunk !in t.atOrigin
  {
    hide Grows;
  }

  lemma OriginTurnAdds(t: Scheduler, e: Rarity)
    ensures t.atOrigin <= OriginTurn(t, e).atOrigin
  {
  }

  lemma {:induction false} OriginPassAdds(s: Scheduler, es: seq<Rarity>, i: nat, k: nat)
    requires i <= k <= |es|
    ensures OriginPass(s, es, i).atOrigin <= OriginPass(s, es, k).atOrigin
    decreases k
  {
    hide OriginTurn;
    if i == k {
    } else {
      OriginPassAdds(s, es, i, k - 1);
      OriginTurnAdds(OriginPass(s, es, k - 1), es[k - 1]);
    }
  }

  /** If an entry of the second loop was asked for by it, so were all before it. */
  lemma OriginPassInOrder(s: Scheduler, es: seq<Rarity>, i: nat, j: nat)
    requires Listed(s, es) && i < j < |es|
    requires es[j].chunk in OriginPass(s, es, |es|).atOrigin
    ensures es[i].chunk in OriginPass(s, es, |es|).atOrigin
  {
    hide Grows, OriginPass, Saturated;
    OriginPassGrows(s, es, j);
    if Saturated(OriginPass(s, es, j)) {
      OriginPassStays(s, es, j, |es|);
      NotAskedYet(s, OriginPass(s, es, j), es, j);
    } else {
      OriginPassGrows(s, es, |es|);
      OriginPassAdds(s, es, j, |es|);
    }
  }

  lemma UnheldEntry(s: Scheduler, c: nat) returns (j: nat)
    requires Idle(s, c) && Holders(s, c) == {}
    ensures j < |UnavailableFromPeers(s)| && UnavailableFromPeers(s)[j].chunk == c
  {
    hide RarityOf, Holders, UnavailableFromPeers, Idle;
    UnavailableLists(s);
    RarityCounts(s, c);
    j :| 0 <= j < |UnavailableFromPeers(s)| && UnavailableFromPeers(s)[j] == RarityOf(s, c);
  }

  /** A pass fetches the chunks that nobody has in the order of their indices, as far as the limit allows. */
  lemma UnheldInOrder(s: Scheduler, c: nat, d: nat, sends: Sends)
    requires Idle(s, c) && Idle(s, d) && d < c && Holders(s, c) == Holders(s, d) == {}
    requires c in ScheduleNext(s, sends).atOrigin
    ensures d in ScheduleNext(s, sends).atOrigin
  {
    hide RarityOf, Holders, UnavailableFromPeers, AvailableFromPeers, PeerPass, OriginPass;
    UnavailableListed(s, sends);
    TurnsTaken(s);
    var j := UnheldEntry(s, c);
    var i := UnheldEntry(s, d);
    var us, es := UnavailableFromPeers(s), AvailableFromPeers(s);
    assert i < j;
    OriginPassInOrder(PeerPass(s, es, |es|, sends), us, i, j);
  }

  function UpTo(n: nat): (r: set<nat>)
    ensures forall c: nat :: c in r <==> c < n
    ensures |r| == n
  {
    if n == 0 then {} else UpTo(n - 1) + {n - 1}
  }

  lemma FirstOnes(cs: set<nat>, n: nat)
    requires |cs| == n && forall c, d: nat :: c in cs && d < c ==> d in cs
    ensures cs == UpTo(n)
  {
    if cs <= UpTo(n) {
      assert |UpTo(n) - cs| == 0 by {
        assert UpTo(n) == cs + (UpTo(n) - cs);
      }
    } else {
      var c :| c in cs && c !in UpTo(n);
      assert UpTo(n + 1) <= cs;
      SubsetSmaller(UpTo(n + 1), cs);
    }
  }

  lemma ColdFillsUp(s: Scheduler, sends: Sends)
    requires s.running && s.have == {} && s.manifest.total >= 8
    requires s.peers.vals == map[] && s.inFlight.vals == map[] && s.atOrigin == {}
    ensures var t := ScheduleNext(s, sends);
      t.inFlight.vals == map[] && |t.atOrigin| == 8 && forall c: nat :: c in t.atOrigin ==> Idle(s, c)
  {
    hide Pass, NewFetches, UpTo;
    var t := ScheduleNext(s, sends);
    assert 0 !in s.have;
    PassGrows(s, sends);
    WorkConservation(s, sends);
    assert t.inFlight.vals == map[];
    if |t.atOrigin| < 8 {
      forall c | c in UpTo(8) ensures c in t.atOrigin {
        assert forall p :: !Offers(t, p, c);
        assert !Idle(t, c);
      }
      SubsetSmaller(UpTo(8), t.atOrigin);
    }
  }

  lemma ColdTakesAll(s: Scheduler, sends: Sends)
    requires s.running && s.have == {} && s.manifest.total < 8
    requires s.peers.vals == map[] && s.inFlight.vals == map[] && s.atOrigin == {}
    ensures var t := ScheduleNext(s, sends);
      t.inFlight.vals == map[] && forall c: nat :: c in t.atOrigin <==> c < s.manifest.total
  {
    hide Pass, NewFetches, UpTo;
    var t, n := ScheduleNext(s, sends), s.manifest.total;
    PassGrows(s, sends);
    assert t.inFlight.vals == map[];
    if n > 0 {
      assert 0 !in s.have;
      WorkConservation(s, sends);
      assert t.atOrigin <= UpTo(n);
      SubsetSmaller(t.atOrigin, UpTo(n));
      forall c: nat | c < n ensures c in t.atOrigin {
        assert forall p :: !Offers(t, p, c);
        assert !Idle(t, c);
      }
    }
  }

  /** The first download of a swarm: with no peers and nothing stored, the first eight chunks are fetched. */
  lemma ColdStart(s: Scheduler, sends: Sends)
    requires s.running && s.have == {}
    requires s.peers.vals == map[] && s.inFlight.vals == map[] && s.atOrigin == {}
    ensures forall c: nat :: c in ScheduleNext(s, sends).atOrigin <==> c < 8 && c < s.manifest.total
    ensures ScheduleNext(s, sends).inFlight.vals == map[]
  {
    hide ScheduleNext;
    if s.manifest.total < 8 {
      ColdTakesAll(s, sends);
    } else {
      var t := ScheduleNext(s, sends);
      ColdFillsUp(s, sends);
      forall c, d: nat | c in t.atOrigin && d < c ensures d in t.atOrigin {
        UnheldInOrder(s, c, d, sends);
      }
      FirstOnes(t.atOrigin, 8);
    }
  }
}
