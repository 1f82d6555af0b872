/** What one scheduling pass does: which chunks it asks for, and why it leaves the others. */
module SchedulerPass {
  import opened OrderedMaps
  import opened SchedulerModel
  import Sorting

  // ---------------------------------------------------------------- lists, one element at a time

  lemma NothingListed(s: Scheduler)
    ensures NotOutstanding(s, []) == []
    ensures forall c :: Offering(s, [], c) == []
    ensures BelowLimit(s, []) == []
  {
  }

  lemma NotOutstandingMore(s: Scheduler, cs: seq<nat>, c: nat)
    ensures NotOutstanding(s, cs + [c]) ==
      if IsOutstanding(s, c) then NotOutstanding(s, cs) else NotOutstanding(s, cs) + [c]
  {
    assert (cs + [c])[..|cs|] == cs;
  }

  lemma OfferingMore(s: Scheduler, ps: seq<PeerId>, p: PeerId, c: nat)
    ensures Offering(s, ps + [p], c) == if Offers(s, p, c) then Offering(s, ps, c) + [p] else Offering(s, ps, c)
  {
    assert (ps + [p])[..|ps|] == ps;
  }

  lemma BelowLimitMore(s: Scheduler, ps: seq<PeerId>, p: PeerId)
    ensures BelowLimit(s, ps + [p]) ==
      if Load(s, p) < MAX_IN_FLIGHT_PER_PEER then BelowLimit(s, ps) + [p] else BelowLimit(s, ps)
  {
    assert (ps + [p])[..|ps|] == ps;
  }

  // ---------------------------------------------------------------- placing one chunk

  /** Neither possessed nor asked for. */
  predicate Idle(s: Scheduler, c: nat) {
    c < s.manifest.total && c !in s.have && !IsOutstanding(s, c)
  }

  /** `t` is `s` with one more request, to an offering peer, after at least `retries` retries. */
  ghost predicate Asked(s: Scheduler, t: Scheduler, c: nat, retries: nat) {
    && c in t.inFlight.vals
    && t == s.(inFlight := s.inFlight.Set(c, t.inFlight.vals[c]))
    && retries <= t.inFlight.vals[c].retries <= REQUEST_RETRIES
    && Offers(s, t.inFlight.vals[c].peer, c)
  }

  ghost predicate Placed(s: Scheduler, t: Scheduler, c: nat, retries: nat) {
    Asked(s, t, c, retries) || t == DispatchOrigin(s, c)
  }

  lemma LeastLoaded(s: Scheduler, ps: seq<PeerId>)
    requires ps != []
    ensures ByLoad(s, ps)[0] in ps
    ensures forall p :: p in ps ==> Load(s, ByLoad(s, ps)[0]) <= Load(s, p)
  {
    Sorting.SortedElements(ps, p => Load(s, p));
    assert ByLoad(s, ps)[0] in ByLoad(s, ps);
  }

  /** The sort is stable: of the least loaded peers, the one known longest comes first. */
  lemma FirstLeast(s: Scheduler, ps: seq<PeerId>, at: nat)
    requires at < |ps|
    requires forall j :: 0 <= j < |ps| ==> Load(s, ps[at]) <= Load(s, ps[j])
    requires forall j :: 0 <= j < at ==> Load(s, ps[at]) < Load(s, ps[j])
    ensures ByLoad(s, ps)[0] == ps[at]
  {
    Sorting.HeadIsFirstLeast(ps, p => Load(s, p), at);
  }

  lemma {:induction false} P2PPlaces(s: Scheduler, c: nat, p: PeerId, retries: nat, sends: Sends)
    requires retries <= REQUEST_RETRIES && c !in s.have && Offers(s, p, c)
    ensures Placed(s, DispatchP2P(s, c, p, retries, sends), c, retries)
    decreases REQUEST_RETRIES + 1 - retries, 0
  {
    if !sends(c, p, retries) {
      ChunkPlaces(s, c, retries + 1, sends);
    }
  }

  /** However the sends go, the chunk ends up with one request or at the origin. */
  lemma {:induction false} ChunkPlaces(s: Scheduler, c: nat, retries: nat, sends: Sends)
    requires c !in s.have
    ensures Placed(s, ScheduleChunk(s, c, retries, sends), c, retries)
    decreases if retries <= REQUEST_RETRIES then REQUEST_RETRIES + 1 - retries else 0, 1
  {
    if retries <= REQUEST_RETRIES && Eligible(s, c) != [] {
      LeastLoaded(s, Eligible(s, c));
      P2PPlaces(s, c, ByLoad(s, Eligible(s, c))[0], retries, sends);
    }
  }

  lemma PossessedStays(s: Scheduler, c: nat, retries: nat, sends: Sends)
    requires c in s.have
    ensures ScheduleChunk(s, c, retries, sends) == s
  {
  }

  /**
   * All attempts of one call ask the same peer, the least loaded one, at successive retry
   * counts; the chunk goes to the origin if and only if nobody offers it or each attempt fails.
   */
  lemma {:induction false} RetriesAskOnePeer(s: Scheduler, c: nat, retries: nat, sends: Sends)
    requires c !in s.have
    ensures var t, ps := ScheduleChunk(s, c, retries, sends), Eligible(s, c);
      if exists k: nat :: retries <= k <= REQUEST_RETRIES && ps != [] && sends(c, ByLoad(s, ps)[0], k) then
        exists k: nat :: retries <= k <= REQUEST_RETRIES && sends(c, ByLoad(s, ps)[0], k)
          && (forall j: nat :: retries <= j < k ==> !sends(c, ByLoad(s, ps)[0], j))
          && t == s.(inFlight := s.inFlight.Set(c, Request(ByLoad(s, ps)[0], k)))
      else t == DispatchOrigin(s, c)
    decreases if retries <= REQUEST_RETRIES then REQUEST_RETRIES + 1 - retries else 0
  {
    var ps := Eligible(s, c);
    if retries <= REQUEST_RETRIES && ps != [] {
      var p := ByLoad(s, ps)[0];
      if sends(c, p, retries) {
        assert sends(c, p, retries) && forall j: nat :: retries <= j < retries ==> !sends(c, p, j);
      } else {
        RetriesAskOnePeer(s, c, retries + 1, sends);
        assert forall k: nat :: retries <= k && sends(c, p, k) ==> retries + 1 <= k;
      }
    }
  }

  // ---------------------------------------------------------------- the per-peer limit

  lemma AskedOneMore(requests: map<nat, Request>, c: nat, r: Request, q: PeerId)
    requires c !in requests
    ensures |AskedOf(requests[c := r], q)| == |AskedOf(requests, q)| + if r.peer == q then 1 else 0
  {
    if r.peer == q {
      assert AskedOf(requests[c := r], q) == AskedOf(requests, q) + {c};
    } else {
      assert AskedOf(requests[c := r], q) == AskedOf(requests, q);
    }
  }

  lemma AskingLoads(s: Scheduler, c: nat, p: PeerId, retries: nat, q: PeerId)
    requires c !in s.inFlight.vals
    ensures Load(s.(inFlight := s.inFlight.Set(c, Request(p, retries))), q) == Load(s, q) + if q == p then 1 else 0
  {
    AskedOneMore(s.inFlight.vals, c, Request(p, retries), q);
  }

  lemma OriginLoads(s: Scheduler, c: nat, q: PeerId)
    ensures Load(DispatchOrigin(s, c), q) == Load(s, q)
  {
    assert Carried(DispatchOrigin(s, c), q) == Carried(s, q);
  }

  /** A chunk is asked of a peer that carries two requests already. */
  ghost predicate OverLimit(s: Scheduler, t: Scheduler) {
    exists p :: Load(t, p) > Max(Load(s, p), MAX_IN_FLIGHT_PER_PEER)
  }

  /**
   * The retry path does not look at the limit, exactly: it gives a peer a third request if and
   * only if each unchoked holder carries two already and the least loaded one takes the request.
   */
  lemma RetryOverLimitExactly(s: Scheduler, c: nat, retries: nat, sends: Sends)
    requires c !in s.have && c !in s.inFlight.vals
    ensures OverLimit(s, ScheduleChunk(s, c, retries, sends)) <==>
      && Eligible(s, c) != [] && HoldersFull(s, s, c)
      && exists k: nat :: retries <= k <= REQUEST_RETRIES && sends(c, ByLoad(s, Eligible(s, c))[0], k)
  {
    hide ScheduleChunk, ByLoad, Load, Offers;
    var ps, t := Eligible(s, c), ScheduleChunk(s, c, retries, sends);
    RetriesAskOnePeer(s, c, retries, sends);
    if k: nat :| retries <= k <= REQUEST_RETRIES && ps != [] && sends(c, ByLoad(s, ps)[0], k) {
      var p := ByLoad(s, ps)[0];
      LeastLoaded(s, ps);
      assert Offers(s, p, c);
      var r: nat :| retries <= r <= REQUEST_RETRIES && t == s.(inFlight := s.inFlight.Set(c, Request(p, r)));
      forall q ensures Load(t, q) == Load(s, q) + if q == p then 1 else 0 {
        AskingLoads(s, c, p, r, q);
      }
    } else {
      forall q ensures Load(t, q) == Load(s, q) {
        OriginLoads(s, c, q);
      }
    }
  }

  // ---------------------------------------------------------------- growing

  /** The new tasks are one fetch for each chunk newly at the origin. */
  ghost predicate NewFetches(s: Scheduler, t: Scheduler) {
    && s.tasks <= t.tasks
    && (forall i :: |s.tasks| <= i < |t.tasks| ==>
          && t.tasks[i] == Task(t.tasks[i].chunk, false, Fetching)
          && t.tasks[i].chunk in t.atOrigin && t.tasks[i].chunk !in s.atOrigin)
    && (forall i, j :: |s.tasks| <= i < j < |t.tasks| ==> t.tasks[i].chunk != t.tasks[j].chunk)
    && (forall c: nat :: c in t.atOrigin && c !in s.atOrigin ==>
          exists i :: |s.tasks| <= i < |t.tasks| && t.tasks[i].chunk == c)
  }

  /** `t` has all the requests of `s`, and new ones only for chunks that were idle. */
  ghost predicate Grows(s: Scheduler, t: Scheduler) {
    && t == s.(inFlight := t.inFlight, atOrigin := t.atOrigin, tasks := t.tasks)
    && (forall c: nat :: c in s.inFlight.vals ==> c in t.inFlight.vals && t.inFlight.vals[c] == s.inFlight.vals[c])
    && s.atOrigin <= t.atOrigin
    && (forall c: nat :: c in t.inFlight.vals && c !in s.inFlight.vals ==> Idle(s, c) && c !in t.atOrigin)
    && (forall c: nat :: c in t.inFlight.vals && c !in s.inFlight.vals ==>
          Offers(s, t.inFlight.vals[c].peer, c) && t.inFlight.vals[c].retries <= REQUEST_RETRIES)
    && (forall c: nat :: c in t.atOrigin && c !in s.atOrigin ==> Idle(s, c) && c !in t.inFlight.vals)
    && NewFetches(s, t)
  }

  lemma PlacingGrows(s: Scheduler, t: Scheduler, c: nat, retries: nat)
    requires Idle(s, c) && Placed(s, t, c, retries)
    ensures Grows(s, t)
    ensures IsOutstanding(t, c)
    ensures forall d: nat :: IsOutstanding(t, d) ==> IsOutstanding(s, d) || d == c
    ensures Outstanding(t) == Outstanding(s) + 1
    ensures |t.inFlight.vals| <= |s.inFlight.vals| + 1
  {
    if t == DispatchOrigin(s, c) {
      assert t.tasks[|s.tasks|].chunk == c;
    }
  }

  lemma NewFetchesCompose(s: Scheduler, t: Scheduler, u: Scheduler)
    requires NewFetches(s, t) && NewFetches(t, u) && s.atOrigin <= t.atOrigin <= u.atOrigin
    ensures NewFetches(s, u)
  {
    forall c: nat | c in u.atOrigin && c !in s.atOrigin
      ensures exists i :: |s.tasks| <= i < |u.tasks| && u.tasks[i].chunk == c
    {
      if c in t.atOrigin {
        var i :| |s.tasks| <= i < |t.tasks| && t.tasks[i].chunk == c;
        assert u.tasks[i].chunk == c;
      }
    }
    forall i | |s.tasks| <= i < |u.tasks|
      ensures u.tasks[i] == Task(u.tasks[i].chunk, false, Fetching)
      ensures u.tasks[i].chunk in u.atOrigin && u.tasks[i].chunk !in s.atOrigin
    {
      if i < |t.tasks| {
        assert u.tasks[i] == t.tasks[i];
      }
    }
    forall i, j | |s.tasks| <= i < j < |u.tasks| ensures u.tasks[i].chunk != u.tasks[j].chunk {
      if i < |t.tasks| {
        assert u.tasks[i] == t.tasks[i];
      }
      if j < |t.tasks| {
        assert u.tasks[j] == t.tasks[j];
      }
    }
  }

  lemma GrowsReflexive(s: Scheduler)
    ensures Grows(s, s)
  {
  }

  lemma GrowsCompose(s: Scheduler, t: Scheduler, u: Scheduler)
    requires Grows(s, t) && Grows(t, u)
    ensures Grows(s, u)
  {
    NewFetchesCompose(s, t, u);
  }

  lemma SubsetSmaller(a: set<nat>, b: set<nat>)
    requires a <= b
    ensures |a| <= |b|
  {
    assert |b| == |a| + |b - a| by { assert b == a + (b - a); }
  }

  lemma LoadsGrow(s: Scheduler, t: Scheduler, p: PeerId)
    requires Grows(s, t)
    ensures Load(s, p) <= Load(t, p)
  {
    SubsetSmaller(Carried(s, p), Carried(t, p));
  }

  lemma OutstandingGrows(s: Scheduler, t: Scheduler)
    requires Grows(s, t)
    ensures Outstanding(s) <= Outstanding(t)
  {
    SubsetSmaller(s.inFlight.vals.Keys, t.inFlight.vals.Keys);
    SubsetSmaller(s.atOrigin, t.atOrigin);
  }

  // ---------------------------------------------------------------- the lists of entries

  /** `es` lists the idle chunks with (or without) a holder, each once. */
  ghost predicate Lists(s: Scheduler, es: seq<Rarity>, available: bool) {
    && (forall i :: 0 <= i < |es| ==>
          es[i] == RarityOf(s, es[i].chunk) && Idle(s, es[i].chunk) && (es[i].rarity > 0) == available)
    && (forall i, j :: 0 <= i < j < |es| ==> es[i].chunk != es[j].chunk)
    && (forall c: nat :: Idle(s, c) && (RarityOf(s, c).rarity > 0) == available ==> RarityOf(s, c) in es)
  }

  lemma {:induction false} RarityMapAt(s: Scheduler, cs: seq<nat>)
    ensures |RarityMap(s, cs)| == |cs|
    ensures forall i :: 0 <= i < |cs| ==> RarityMap(s, cs)[i] == RarityOf(s, cs[i])
  {
    if cs == [] {
    } else {
      RarityMapAt(s, cs[..|cs| - 1]);
    }
  }

  lemma {:induction false} Selected(es: seq<Rarity>, available: bool)
    requires forall i, j :: 0 <= i < j < |es| ==> es[i].chunk != es[j].chunk
    ensures forall e :: e in Select(es, available) <==> e in es && (e.rarity > 0) == available
    ensures forall i, j :: 0 <= i < j < |Select(es, available)| ==>
      Select(es, available)[i].chunk != Select(es, available)[j].chunk
  {
    if es == [] {
    } else {
      var front, last := es[..|es| - 1], es[|es| - 1];
      Selected(front, available);
      assert forall e :: e in es <==> e in front || e == last;
      assert forall e :: e in front ==> e.chunk != last.chunk;
      assert forall i :: 0 <= i < |Select(front, available)| ==> Select(front, available)[i] in front;
    }
  }

  lemma SelectionLists(s: Scheduler, available: bool)
    ensures Lists(s, Select(RarityMap(s, Candidates(s)), available), available)
  {
    var cs := Candidates(s);
    var rs := RarityMap(s, cs);
    RarityMapAt(s, cs);
    Selected(rs, available);
    var es := Select(rs, available);
    forall i | 0 <= i < |es|
      ensures es[i] == RarityOf(s, es[i].chunk) && Idle(s, es[i].chunk) && (es[i].rarity > 0) == available
    {
      assert es[i] in es;
      var j :| 0 <= j < |rs| && rs[j] == es[i];
      assert cs[j] in cs;
    }
    forall c: nat | Idle(s, c) && (RarityOf(s, c).rarity > 0) == available ensures RarityOf(s, c) in es {
      assert c in cs;
      var j :| 0 <= j < |cs| && cs[j] == c;
      assert rs[j] == RarityOf(s, c);
    }
  }

  lemma UnavailableLists(s: Scheduler)
    ensures Lists(s, UnavailableFromPeers(s), false)
  {
    SelectionLists(s, false);
  }

  lemma ReorderedLists(s: Scheduler, es: seq<Rarity>, rs: seq<Rarity>, available: bool)
    requires Lists(s, es, available)
    requires forall e :: e in rs <==> e in es
    requires Distinct(rs)
    ensures Lists(s, rs, available)
  {
    forall i | 0 <= i < |rs|
      ensures rs[i] == RarityOf(s, rs[i].chunk) && Idle(s, rs[i].chunk) && (rs[i].rarity > 0) == available
    {
      assert rs[i] in es;
    }
  }

  /** Sorting keeps the list and puts the rarest chunks first. */
  lemma AvailableLists(s: Scheduler)
    ensures Lists(s, AvailableFromPeers(s), true)
    ensures forall i, j :: 0 <= i < j < |AvailableFromPeers(s)| ==>
      AvailableFromPeers(s)[i].rarity <= AvailableFromPeers(s)[j].rarity
  {
    SelectionLists(s, true);
    var es := Select(RarityMap(s, Candidates(s)), true);
    Sorting.SortedElements(es, RarityKey);
    Sorting.SortCorrect(es, RarityKey);
    assert Distinct(es);
    Sorting.SortKeepsDistinct(es, RarityKey);
    ReorderedLists(s, es, ByRarity(es), true);
    var rs := AvailableFromPeers(s);
    forall i, j | 0 <= i < j < |rs| ensures rs[i].rarity <= rs[j].rarity {
      assert RarityKey(rs[i]) <= RarityKey(rs[j]);
    }
  }

  // ---------------------------------------------------------------- the loop over holders

  function Max(a: nat, b: nat): nat {
    if a < b then b else a
  }

  /** Everything asked for in `t` was asked for in `s` or is one of the first `k` entries. */
  ghost predicate OnlyFrom(s: Scheduler, t: Scheduler, es: seq<Rarity>, k: nat)
    requires k <= |es|
  {
    forall c: nat :: IsOutstanding(t, c) ==> IsOutstanding(s, c) || exists j :: 0 <= j < k && es[j].chunk == c
  }

  ghost predicate HoldersFull(s: Scheduler, t: Scheduler, c: nat) {
    forall p :: Offers(s, p, c) ==> Load(t, p) >= MAX_IN_FLIGHT_PER_PEER
  }

  /** The total limit was reached. */
  predicate Saturated(s: Scheduler) {
    Outstanding(s) >= MAX_TOTAL_IN_FLIGHT
  }

  /** What one turn of either loop does for an idle chunk `c`. */
  ghost predicate Turn(t: Scheduler, u: Scheduler, c: nat) {
    && Grows(t, u)
    && (forall d: nat :: IsOutstanding(u, d) ==> IsOutstanding(t, d) || d == c)
    && Outstanding(u) <= Max(Outstanding(t), MAX_TOTAL_IN_FLIGHT)
    && |u.inFlight.vals| <= Max(|t.inFlight.vals|, MAX_TOTAL_IN_FLIGHT)
    && (Saturated(t) ==> u == t)
  }

  lemma PeerTurnDoes(s: Scheduler, t: Scheduler, c: nat, sends: Sends)
    requires Grows(s, t) && Idle(t, c)
    ensures var u := PeerTurn(t, RarityOf(s, c), sends);
      Turn(t, u, c) && (IsOutstanding(u, c) || Saturated(t) || HoldersFull(s, t, c))
  {
    if !Saturated(t) {
      var e := RarityOf(s, c);
      var free := BelowLimit(t, e.peers);
      if free == [] {
        forall p | Offers(s, p, c) ensures Load(t, p) >= MAX_IN_FLIGHT_PER_PEER {
          assert p in e.peers && p !in free;
        }
      } else {
        LeastLoaded(t, free);
        var p := ByLoad(t, free)[0];
        P2PPlaces(t, c, p, 0, sends);
        PlacingGrows(t, DispatchP2P(t, c, p, 0, sends), c, 0);
      }
    }
  }

  /** What a prefix of either loop does. */
  ghost predicate Progress(s: Scheduler, t: Scheduler, es: seq<Rarity>, k: nat)
    requires k <= |es|
  {
    && Grows(s, t)
    && OnlyFrom(s, t, es, k)
    && Outstanding(t) <= Max(Outstanding(s), MAX_TOTAL_IN_FLIGHT)
    && |t.inFlight.vals| <= Max(|s.inFlight.vals|, MAX_TOTAL_IN_FLIGHT)
  }

  lemma TurnProgresses(s: Scheduler, t: Scheduler, u: Scheduler, es: seq<Rarity>, k: nat)
    requires k < |es| && Progress(s, t, es, k) && Turn(t, u, es[k].chunk)
    ensures Progress(s, u, es, k + 1)
  {
    GrowsCompose(s, t, u);
    forall c: nat | IsOutstanding(u, c) && !IsOutstanding(s, c)
      ensures exists j :: 0 <= j < k + 1 && es[j].chunk == c
    {
      if c == es[k].chunk {
      } else {
        var j :| 0 <= j < k && es[j].chunk == c;
      }
    }
  }

  lemma ProgressStarts(s: Scheduler, es: seq<Rarity>)
    ensures Progress(s, s, es, 0)
  {
  }

  lemma ProgressGrows(s: Scheduler, t: Scheduler, es: seq<Rarity>, k: nat)
    requires k <= |es| && Progress(s, t, es, k)
    ensures Grows(s, t)
  {
  }

  lemma StillIdle(s: Scheduler, t: Scheduler, es: seq<Rarity>, k: nat)
    requires k < |es| && Progress(s, t, es, k)
    requires Idle(s, es[k].chunk) && forall j :: 0 <= j < k ==> es[j].chunk != es[k].chunk
    ensures Idle(t, es[k].chunk)
  {
  }

  lemma PeerTurnProgresses(s: Scheduler, t: Scheduler, es: seq<Rarity>, k: nat, sends: Sends)
    requires Lists(s, es, true) && k < |es| && Progress(s, t, es, k)
    ensures Progress(s, PeerTurn(t, es[k], sends), es, k + 1)
  {
    hide Progress, Turn, PeerTurn, Grows, Idle, RarityOf;
    ProgressGrows(s, t, es, k);
    StillIdle(s, t, es, k);
    PeerTurnDoes(s, t, es[k].chunk, sends);
    TurnProgresses(s, t, PeerTurn(t, es[k], sends), es, k);
  }

  lemma {:induction false} PeerPassGrows(s: Scheduler, es: seq<Rarity>, k: nat, sends: Sends)
    requires Lists(s, es, true) && k <= |es|
    ensures Progress(s, PeerPass(s, es, k, sends), es, k)
  {
    hide Lists, Progress, PeerTurn;
    if k == 0 {
      ProgressStarts(s, es);
    } else {
      PeerPassGrows(s, es, k - 1, sends);
      PeerTurnProgresses(s, PeerPass(s, es, k - 1, sends), es, k - 1, sends);
    }
  }

  /** One turn of the loop: what changes, and why an entry is skipped. */
  lemma PeerPassTurn(s: Scheduler, es: seq<Rarity>, k: nat, sends: Sends)
    requires Lists(s, es, true) && k < |es|
    ensures var t, u := PeerPass(s, es, k, sends), PeerPass(s, es, k + 1, sends);
      && Grows(t, u)
      && (IsOutstanding(u, es[k].chunk) || Saturated(t) || HoldersFull(s, t, es[k].chunk))
  {
    PeerPassGrows(s, es, k, sends);
    var t := PeerPass(s, es, k, sends);
    StillIdle(s, t, es, k);
    PeerTurnDoes(s, t, es[k].chunk, sends);
  }

  lemma {:induction false} PeerPassMonotone(s: Scheduler, es: seq<Rarity>, i: nat, k: nat, sends: Sends)
    requires Lists(s, es, true) && i <= k <= |es|
    ensures Grows(PeerPass(s, es, i, sends), PeerPass(s, es, k, sends))
    decreases k
  {
    hide Grows, PeerTurn, Lists;
    if i == k {
      GrowsReflexive(PeerPass(s, es, i, sends));
    } else {
      PeerPassMonotone(s, es, i, k - 1, sends);
      PeerPassTurn(s, es, k - 1, sends);
      GrowsCompose(PeerPass(s, es, i, sends), PeerPass(s, es, k - 1, sends), PeerPass(s, es, k, sends));
    }
  }

  // ---------------------------------------------------------------- the loop over chunks nobody has

  ghost predicate Listed(s: Scheduler, es: seq<Rarity>) {
    && (forall i :: 0 <= i < |es| ==> Idle(s, es[i].chunk))
    && (forall i, j :: 0 <= i < j < |es| ==> es[i].chunk != es[j].chunk)
  }

  lemma OriginTurnDoes(t: Scheduler, e: Rarity)
    requires Idle(t, e.chunk)
    ensures var u := OriginTurn(t, e);
      && Turn(t, u, e.chunk)
      && t.atOrigin <= u.atOrigin
      && (Saturated(t) ==> u == t)
      && (e.chunk in u.atOrigin || Saturated(t))
      && u.inFlight == t.inFlight
  {
    if !Saturated(t) {
      PlacingGrows(t, DispatchOrigin(t, e.chunk), e.chunk, 0);
    }
  }

  /** Every listed chunk is asked for, unless the total limit was reached. */
  lemma {:induction false} OriginPassGrows(s: Scheduler, es: seq<Rarity>, k: nat)
    requires Listed(s, es) && k <= |es|
    ensures var t := OriginPass(s, es, k);
      && Progress(s, t, es, k)
      && (Saturated(t) || forall i :: 0 <= i < k ==> es[i].chunk in t.atOrigin)
  {
    hide Grows, Progress, Turn, OriginTurn, Idle;
    if k == 0 {
      ProgressStarts(s, es);
    } else {
      OriginPassGrows(s, es, k - 1);
      var t := OriginPass(s, es, k - 1);
      StillIdle(s, t, es, k - 1);
      OriginTurnDoes(t, es[k - 1]);
      var u := OriginTurn(t, es[k - 1]);
      TurnProgresses(s, t, u, es, k - 1);
    }
  }

  // ---------------------------------------------------------------- the whole pass

  lemma UnavailableListed(s: Scheduler, sends: Sends)
    ensures var es := AvailableFromPeers(s);
      Listed(PeerPass(s, es, |es|, sends), UnavailableFromPeers(s))
  {
    AvailableLists(s);
    UnavailableLists(s);
    var es, us := AvailableFromPeers(s), UnavailableFromPeers(s);
    PeerPassGrows(s, es, |es|, sends);
    var t := PeerPass(s, es, |es|, sends);
    forall i | 0 <= i < |us| ensures Idle(t, us[i].chunk) {
      var c := us[i].chunk;
      assert forall j :: 0 <= j < |es| && es[j].chunk == c ==> es[j] == us[i];
    }
  }

  lemma PassGrows(s: Scheduler, sends: Sends)
    ensures Grows(s, Pass(s, sends))
    ensures Outstanding(Pass(s, sends)) <= Max(Outstanding(s), MAX_TOTAL_IN_FLIGHT)
    ensures |Pass(s, sends).inFlight.vals| <= Max(|s.inFlight.vals|, MAX_TOTAL_IN_FLIGHT)
  {
    AvailableLists(s);
    var es, us := AvailableFromPeers(s), UnavailableFromPeers(s);
    PeerPassGrows(s, es, |es|, sends);
    UnavailableListed(s, sends);
    var t := PeerPass(s, es, |es|, sends);
    OriginPassGrows(t, us, |us|);
    GrowsCompose(s, t, Pass(s, sends));
  }

  lemma GrowsOutstanding(s: Scheduler, t: Scheduler, c: nat)
    requires Grows(s, t) && IsOutstanding(s, c)
    ensures IsOutstanding(t, c)
  {
  }

  lemma PassBehindPeers(s: Scheduler, k: nat, sends: Sends)
    requires k <= |AvailableFromPeers(s)|
    ensures Grows(PeerPass(s, AvailableFromPeers(s), k, sends), Pass(s, sends))
  {
    hide Grows, PeerPass, OriginPass, AvailableFromPeers, UnavailableFromPeers, Lists, Listed, Progress;
    AvailableLists(s);
    UnavailableListed(s, sends);
    var es, us := AvailableFromPeers(s), UnavailableFromPeers(s);
    var t, u := PeerPass(s, es, k, sends), PeerPass(s, es, |es|, sends);
    PeerPassMonotone(s, es, k, |es|, sends);
    OriginPassGrows(u, us, |us|);
    ProgressGrows(u, Pass(s, sends), us, |us|);
    GrowsCompose(t, u, Pass(s, sends));
  }

  /** A chunk with holders that the pass leaves was skipped at its turn for one of two reasons. */
  lemma SkippedFor(s: Scheduler, es: seq<Rarity>, k: nat, sends: Sends)
    requires es == AvailableFromPeers(s) && k < |es|
    requires !IsOutstanding(Pass(s, sends), es[k].chunk)
    ensures var t := PeerPass(s, es, k, sends);
      Grows(t, Pass(s, sends)) && (Saturated(t) || HoldersFull(s, t, es[k].chunk))
  {
    hide Grows, Pass, PeerPass, AvailableFromPeers, IsOutstanding, HoldersFull, Saturated;
    AvailableLists(s);
    PeerPassTurn(s, es, k, sends);
    PassBehindPeers(s, k, sends);
    PassBehindPeers(s, k + 1, sends);
    var u := PeerPass(s, es, k + 1, sends);
    if IsOutstanding(u, es[k].chunk) {
      GrowsOutstanding(u, Pass(s, sends), es[k].chunk);
    }
  }

  lemma LeftOverHeld(s: Scheduler, c: nat, sends: Sends)
    requires Idle(Pass(s, sends), c) && !Saturated(Pass(s, sends)) && RarityOf(s, c).rarity > 0
    ensures HoldersFull(Pass(s, sends), Pass(s, sends), c)
  {
    hide Pass, PeerPass, AvailableFromPeers;
    PassGrows(s, sends);
    AvailableLists(s);
    var es, t := AvailableFromPeers(s), Pass(s, sends);
    var k :| 0 <= k < |es| && es[k] == RarityOf(s, c);
    SkippedFor(s, es, k, sends);
    var u := PeerPass(s, es, k, sends);
    OutstandingGrows(u, t);
    forall p | Offers(t, p, c) ensures Load(t, p) >= MAX_IN_FLIGHT_PER_PEER {
      LoadsGrow(u, t, p);
    }
  }

  lemma UnheldServed(s: Scheduler, c: nat, sends: Sends)
    requires Idle(s, c) && !Saturated(Pass(s, sends)) && RarityOf(s, c).rarity == 0
    ensures c in Pass(s, sends).atOrigin
  {
    hide PeerPass, OriginPass, AvailableFromPeers, UnavailableFromPeers, Grows;
    UnavailableLists(s);
    UnavailableListed(s, sends);
    var es, us := AvailableFromPeers(s), UnavailableFromPeers(s);
    OriginPassGrows(PeerPass(s, es, |es|, sends), us, |us|);
    var k :| 0 <= k < |us| && us[k] == RarityOf(s, c);
    assert us[k].chunk in Pass(s, sends).atOrigin;
  }

  lemma LeftOver(s: Scheduler, c: nat, sends: Sends)
    requires Idle(Pass(s, sends), c) && !Saturated(Pass(s, sends))
    ensures var t := Pass(s, sends); (exists p :: Offers(t, p, c)) && HoldersFull(t, t, c)
  {
    PassGrows(s, sends);
    var t := Pass(s, sends);
    var e := RarityOf(s, c);
    if e.rarity > 0 {
      assert Offers(s, e.peers[0], c);
      assert Offers(t, e.peers[0], c);
      LeftOverHeld(s, c, sends);
    } else {
      UnheldServed(s, c, sends);
    }
  }

  /**
   * Work conservation. When the scheduler returns, either eight requests are outstanding, or
   * each chunk it did not ask for has an unchoked holder and all its unchoked holders carry two.
   */
  lemma WorkConservation(s: Scheduler, sends: Sends)
    requires s.running && !Complete(s)
    ensures var t := ScheduleNext(s, sends);
      || Outstanding(t) >= 8
      || forall c: nat :: Idle(t, c) ==>
           (exists p :: Offers(t, p, c)) && forall p :: Offers(t, p, c) ==> Load(t, p) >= 2
    ensures Outstanding(s) <= 8 ==> Outstanding(ScheduleNext(s, sends)) <= 8
  {
    var t := ScheduleNext(s, sends);
    PassGrows(s, sends);
    if Outstanding(t) < 8 {
      forall c: nat | Idle(t, c)
        ensures (exists p :: Offers(t, p, c)) && forall p :: Offers(t, p, c) ==> Load(t, p) >= 2
      {
        OutstandingGrows(s, t);
        assert Idle(s, c);
        LeftOver(s, c, sends);
      }
    }
  }

  lemma SaturatedTurn(s: Scheduler, e: Rarity, sends: Sends)
    requires Saturated(s)
    ensures PeerTurn(s, e, sends) == s
  {
  }

  lemma {:induction false} PeerPassStays(s: Scheduler, es: seq<Rarity>, i: nat, k: nat, sends: Sends)
    requires i <= k <= |es|
    requires Saturated(PeerPass(s, es, i, sends))
    ensures PeerPass(s, es, k, sends) == PeerPass(s, es, i, sends)
    decreases k
  {
    hide PeerTurn, Saturated;
    if i < k {
      PeerPassStays(s, es, i, k - 1, sends);
      SaturatedTurn(PeerPass(s, es, i, sends), es[k - 1], sends);
    }
  }

  lemma SaturatedOriginTurn(s: Scheduler, e: Rarity)
    requires Saturated(s)
    ensures OriginTurn(s, e) == s
  {
  }

  lemma {:induction false} OriginPassStays(s: Scheduler, es: seq<Rarity>, i: nat, k: nat)
    requires i <= k <= |es| && Saturated(OriginPass(s, es, i))
    ensures OriginPass(s, es, k) == OriginPass(s, es, i)
    decreases k
  {
    hide OriginTurn, Saturated;
    if i < k {
      OriginPassStays(s, es, i, k - 1);
      SaturatedOriginTurn(OriginPass(s, es, i), es[k - 1]);
    }
  }

  /** Once the limit is reached, nothing behind entry `k` is asked for. */
  lemma PassSaturated(s: Scheduler, es: seq<Rarity>, k: nat, sends: Sends)
    requires es == AvailableFromPeers(s) && k <= |es|
    requires Saturated(PeerPass(s, es, k, sends))
    ensures Pass(s, sends) == PeerPass(s, es, k, sends)
    ensures OnlyFrom(s, Pass(s, sends), es, k)
  {
    AvailableLists(s);
    PeerPassStays(s, es, k, |es|, sends);
    var us := UnavailableFromPeers(s);
    OriginPassStays(PeerPass(s, es, |es|, sends), us, 0, |us|);
    PeerPassGrows(s, es, k, sends);
  }

  lemma OwnEntry(s: Scheduler, c: nat)
    ensures RarityOf(s, c).chunk == c
  {
  }

  lemma StillFull(s: Scheduler, t: Scheduler, u: Scheduler, c: nat)
    requires Grows(t, u) && HoldersFull(s, t, c)
    ensures HoldersFull(s, u, c)
  {
    forall p | Offers(s, p, c) ensures Load(u, p) >= MAX_IN_FLIGHT_PER_PEER {
      LoadsGrow(t, u, p);
    }
  }

  lemma OriginPassStep(s: Scheduler, es: seq<Rarity>, k: nat)
    requires k < |es|
    ensures OriginPass(s, es, k + 1) == OriginTurn(OriginPass(s, es, k), es[k])
  {
  }

  lemma TurnWithinLimit(t: Scheduler, e: Rarity, sends: Sends, q: PeerId)
    requires e.chunk !in t.inFlight.vals && forall p :: sends(e.chunk, p, 0)
    ensures Load(PeerTurn(t, e, sends), q) <= Max(Load(t, q), MAX_IN_FLIGHT_PER_PEER)
  {
    hide ByLoad, Load;
    var free := BelowLimit(t, e.peers);
    if free != [] {
      LeastLoaded(t, free);
      AskingLoads(t, e.chunk, ByLoad(t, free)[0], 0, q);
    }
  }

  lemma ListedTurn(s: Scheduler, es: seq<Rarity>, k: nat, sends: Sends)
    requires Lists(s, es, true) && k < |es|
    ensures Idle(PeerPass(s, es, k, sends), es[k].chunk)
  {
    hide PeerPass, Progress;
    PeerPassGrows(s, es, k, sends);
    StillIdle(s, PeerPass(s, es, k, sends), es, k);
  }

  lemma {:induction false} PeerPassWithinLimit(s: Scheduler, es: seq<Rarity>, k: nat, sends: Sends, q: PeerId)
    requires Lists(s, es, true) && k <= |es| && forall c, p :: sends(c, p, 0)
    ensures Load(PeerPass(s, es, k, sends), q) <= Max(Load(s, q), MAX_IN_FLIGHT_PER_PEER)
  {
    hide PeerTurn, Load, Grows, Lists, Progress;
    if k == 0 {
    } else {
      PeerPassWithinLimit(s, es, k - 1, sends, q);
      ListedTurn(s, es, k - 1, sends);
      TurnWithinLimit(PeerPass(s, es, k - 1, sends), es[k - 1], sends, q);
    }
  }

  lemma {:induction false} OriginPassLoads(s: Scheduler, es: seq<Rarity>, k: nat, q: PeerId)
    requires k <= |es|
    ensures Load(OriginPass(s, es, k), q) == Load(s, q)
  {
    hide DispatchOrigin, Load;
    if k == 0 {
    } else {
      OriginPassLoads(s, es, k - 1, q);
      OriginLoads(OriginPass(s, es, k - 1), es[k - 1].chunk, q);
    }
  }

  lemma LogLoads(s: Scheduler, q: PeerId)
    ensures Load(s.(log := s.log + [DownloadComplete]), q) == Load(s, q)
  {
    assert Carried(s.(log := s.log + [DownloadComplete]), q) == Carried(s, q);
  }

  /** A pass gives no peer a third request while the first attempt of each send succeeds. */
  lemma PassWithinLimit(s: Scheduler, sends: Sends)
    requires forall c, p :: sends(c, p, 0)
    ensures !OverLimit(s, ScheduleNext(s, sends))
    ensures forall p :: Load(ScheduleNext(s, sends), p) <= Max(Load(s, p), 2)
  {
    hide PeerPass, OriginPass, AvailableFromPeers, UnavailableFromPeers, Load;
    AvailableLists(s);
    var es, us := AvailableFromPeers(s), UnavailableFromPeers(s);
    forall q ensures Load(ScheduleNext(s, sends), q) <= Max(Load(s, q), MAX_IN_FLIGHT_PER_PEER) {
      PeerPassWithinLimit(s, es, |es|, sends, q);
      OriginPassLoads(PeerPass(s, es, |es|, sends), us, |us|, q);
      LogLoads(s, q);
    }
  }

  lemma ScheduleNextKeeps(s: Scheduler, sends: Sends)
    ensures ScheduleNext(s, sends).have == s.have && ScheduleNext(s, sends).manifest == s.manifest
  {
    PassGrows(s, sends);
  }

  /** A running, unfinished scheduler never returns with nothing asked for. */
  lemma PassKeepsBusy(s: Scheduler, sends: Sends)
    requires s.running && !Complete(s)
    ensures Outstanding(ScheduleNext(s, sends)) > 0
  {
    hide ScheduleNext;
    WorkConservation(s, sends);
    ScheduleNextKeeps(s, sends);
    var t := ScheduleNext(s, sends);
    if Outstanding(t) == 0 {
      var c: nat :| c < s.manifest.total && c !in s.have;
      assert Idle(t, c);
      forall p ensures Load(t, p) == 0 {
        assert t.inFlight.vals == map[];
        assert Carried(t, p) == {};
      }
      assert false;
    }
  }
}
