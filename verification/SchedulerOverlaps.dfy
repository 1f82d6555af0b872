/** Runs in which a chunk has two places at once: possessed and at the origin, or in flight and at the origin. */
module SchedulerOverlaps {
  import opened OrderedMaps
  import opened SchedulerModel
  import opened SchedulerPass
  import opened SchedulerAtomic
  import opened SchedulerExamples
  import opened SchedulerInterleaving
  import opened SchedulerPotential
  import Reassembling

  lemma {:induction false} EachOnce(ts: seq<Task>, cs: set<nat>)
    requires forall i :: 0 <= i < |ts| ==> ts[i].chunk in cs
    requires forall i, j :: 0 <= i < j < |ts| ==> ts[i].chunk != ts[j].chunk
    requires forall c :: c in cs ==> exists i :: 0 <= i < |ts| && ts[i].chunk == c
    ensures |ts| == |cs|
  {
    if ts == [] {
      assert forall c :: c !in cs;
      assert cs == {};
    } else {
      var n := |ts| - 1;
      EachOnce(ts[..n], cs - {ts[n].chunk});
    }
  }

  lemma FetchCount(s: Scheduler, t: Scheduler)
    requires Grows(s, t) && s.atOrigin == {} && s.tasks == []
    ensures |t.tasks| == |t.atOrigin|
  {
    EachOnce(t.tasks, t.atOrigin);
  }

  // ---------------------------------------------------------------- an ordinary fetch

  /** A download that has just begun and knows no peer. */
  function Alone(): Scheduler {
    Initial(ONE_CHUNK, {}, map[]).(running := true)
  }

  /** The chunk goes to the origin. */
  lemma FetchesOnly()
    ensures var t := ScheduleNext(Alone(), DELIVERS);
      t.manifest == ONE_CHUNK && t.have == {} && t.atOrigin == {0} && t.tasks == [Task(0, false, Fetching)]
  {
    hide Pass;
    var s, t := Alone(), ScheduleNext(Alone(), DELIVERS);
    PassGrows(s, DELIVERS);
    assert 0 !in s.have;
    assert t.inFlight.vals == map[];
    assert t.atOrigin <= {0};
    SubsetSmaller(t.atOrigin, {0});
    UnheldServed(s, 0, DELIVERS);
    FetchCount(s, t);
    assert t.tasks[0].chunk in t.atOrigin;
  }

  /** Between the write and the continuation of any fetch its chunk is possessed and at the origin. */
  lemma FetchedExample()
    ensures var t := Run(Initial(ONE_CHUNK, {}, map[]),
                         [Input(Started, DELIVERS)] + [Input(FetchResolved(0, [7]), DELIVERS)]
                         + [Input(VerifyResolved(0), DELIVERS)] + [Input(PutResolved(0), DELIVERS)], HASH);
      0 in t.have && 0 in t.atOrigin
  {
    hide Run, ScheduleNext;
    var s := Initial(ONE_CHUNK, {}, map[]);
    var a, b := Input(Started, DELIVERS), Input(FetchResolved(0, [7]), DELIVERS);
    var c, d := Input(VerifyResolved(0), DELIVERS), Input(PutResolved(0), DELIVERS);
    NoInputs(s);
    assert [] + [a] == [a];
    RunMore(s, [], a, HASH);
    FetchesOnly();
    RunMore(s, [a], b, HASH);
    RunMore(s, [a] + [b], c, HASH);
    RunMore(s, [a] + [b] + [c], d, HASH);
  }

  // ---------------------------------------------------------------- nine requests

  /** The only byte of the first chunk is 7, and nobody announces the others. */
  const NINE_CHUNKS := Manifest(9, map[0 := [7]])

  lemma FirstTurn(s: Scheduler, p: PeerId)
    requires Waiting(s, p)
    ensures var es := AvailableFromPeers(s);
      |es| >= 1 && (s.manifest == NINE_CHUNKS ==> PeerPass(s, es, 1, DELIVERS) == s.(inFlight := Asking(p)))
  {
    hide PeerTurn, AvailableFromPeers;
    OneOffers(s, p);
    AvailableLists(s);
    OneTurn(s, p);
    var es := AvailableFromPeers(s);
    assert RarityOf(s, 0) in es;
    assert PeerPass(s, es, 0, DELIVERS) == s;
    if s.manifest == NINE_CHUNKS {
      forall c | RarityOf(s, c).rarity > 0 ensures c == 0 {
        assert Offers(s, Eligible(s, c)[0], c);
      }
      assert es[0].chunk == 0;
    }
  }

  lemma OneHolder(s: Scheduler, p: PeerId, q: PeerId, c: nat)
    requires s.peers == Holder(p, s.manifest.total) && Offers(s, q, c)
    ensures c == 0
  {
  }

  /** Only the first chunk is asked of a peer. */
  lemma OnlyFirst(s: Scheduler, t: Scheduler, p: PeerId)
    requires Waiting(s, p) && Grows(s.(inFlight := Asking(p)), t)
    ensures t.inFlight.vals == map[0 := Request(p, 0)] && 0 !in t.atOrigin
  {
    hide Offers, Holder;
    AskingHolder(p);
    var u := s.(inFlight := Asking(p));
    assert u.inFlight.vals == map[0 := Request(p, 0)];
    forall c | c in t.inFlight.vals ensures c == 0 {
      if c !in u.inFlight.vals {
        OneHolder(u, p, t.inFlight.vals[c].peer, c);
      }
    }
  }

  lemma NobodyElse(t: Scheduler, p: PeerId)
    requires t.manifest == NINE_CHUNKS && t.have == {} && t.peers == Holder(p, 9)
    requires t.inFlight.vals == map[0 := Request(p, 0)] && |t.atOrigin| < 7
    ensures exists c: nat :: Idle(t, c) && forall q :: !Offers(t, q, c)
  {
    var others: set<nat> := {1, 2, 3, 4, 5, 6, 7};
    if others <= t.atOrigin {
      SubsetSmaller(others, t.atOrigin);
    } else {
      var c :| c in others && c !in t.atOrigin;
      assert Idle(t, c);
    }
  }

  /** The holder is asked for its chunk, and the origin for seven others. */
  lemma FillsUp(s: Scheduler, p: PeerId)
    requires Waiting(s, p) && s.running && s.manifest == NINE_CHUNKS
    ensures var t := ScheduleNext(s, DELIVERS);
      && Grows(s, t)
      && t.inFlight.vals == map[0 := Request(p, 0)] && 0 !in t.atOrigin && |t.atOrigin| == 7
  {
    hide Pass, PeerPass, AvailableFromPeers;
    var t, u := ScheduleNext(s, DELIVERS), s.(inFlight := Asking(p));
    assert 0 !in s.have;
    FirstTurn(s, p);
    PassBehindPeers(s, 1, DELIVERS);
    PassGrows(s, DELIVERS);
    AskingHolder(p);
    OnlyFirst(s, t, p);
    WorkConservation(s, DELIVERS);
    if |t.atOrigin| < 7 {
      NobodyElse(t, p);
    }
  }

  // ---------------------------------------------------------------- the run

  /** A false byte arrives, and the holder announces the chunk again while it is being hashed. */
  function Overlapping(p: PeerId): seq<Input> {
    [Input(GotBitfield(p, PeerBits(9, {0})), DELIVERS)] + [Input(Started, DELIVERS)]
    + [Input(GotPiece(0, 0, 1, [8]), DELIVERS)] + [Input(GotHave(p, 0), DELIVERS)]
  }

  function Idling(p: PeerId, running: bool): Scheduler {
    Scheduler(NINE_CHUNKS, running, {}, Holder(p, 9), map[p := false], Empty(), map[], {}, [], map[], [])
  }

  lemma AnnouncesFirst(p: PeerId)
    ensures Step(Initial(NINE_CHUNKS, {}, map[]), Input(GotBitfield(p, PeerBits(9, {0})), DELIVERS), HASH)
         == Idling(p, false)
  {
    assert !Initial(NINE_CHUNKS, {}, map[]).running;
  }

  /** The state with the false byte at task `7`, and the first chunk to be asked for again. */
  ghost predicate Doubtful(s: Scheduler, p: PeerId) {
    && s.manifest == NINE_CHUNKS && s.running && Waiting(s, p) && |s.atOrigin| == 7
    && |s.tasks| == 8 && s.tasks[7] == Task(0, true, Verifying([8]))
  }

  lemma SomeKey(requests: OrderedMap<nat, Request>)
    requires requests != Empty()
    ensures exists c :: c in requests.vals
  {
    if requests.keys != [] {
      assert requests.keys[0] in requests.vals.Keys;
    }
  }

  lemma NothingLeft(requests: OrderedMap<nat, Request>)
    requires requests.vals.Keys == {0}
    ensures requests.Delete(0) == Empty()
  {
    var left := requests.Delete(0);
    assert left.vals == map[];
    if left != Empty() {
      SomeKey(left);
    }
  }

  lemma FalseByte(s: Scheduler, p: PeerId)
    requires s.manifest == NINE_CHUNKS && s.running && s.have == {} && s.reassembly == map[]
    requires s.peers == Holder(p, 9) && s.choked == map[p := false]
    requires s.inFlight.vals == map[0 := Request(p, 0)] && 0 !in s.atOrigin && |s.atOrigin| == 7 && |s.tasks| == 7
    ensures Doubtful(HandlePiece(s, 0, 0, 1, [8]), p)
  {
    hide Reassembling.Complete, Reassembling.Overruns, Reassembling.Assembled, Reassembling.AddBlock;
    OneByte(8);
    NothingLeft(s.inFlight);
  }

  lemma AskedAgain(s: Scheduler, p: PeerId)
    requires Doubtful(s, p)
    ensures var t := UpdatePeerHave(s, p, 0, DELIVERS);
      && t.manifest == NINE_CHUNKS && t.have == {} && Outstanding(t) == MAX_TOTAL_IN_FLIGHT
      && 0 in t.inFlight.vals && 0 !in t.atOrigin
      && Waits(t, 7) && t.tasks[7] == Task(0, true, Verifying([8]))
  {
    hide ScheduleNext;
    assert PeerBits(9, {0}).bits + {0} == {0};
    assert s.peers.Set(p, PeerBits(9, {0})) == Holder(p, 9);
    FillsUp(s, p);
  }

  lemma BeforeRefusal(p: PeerId)
    ensures var t := Run(Initial(NINE_CHUNKS, {}, map[]), Overlapping(p), HASH);
      && t.manifest == NINE_CHUNKS && t.have == {} && Outstanding(t) == MAX_TOTAL_IN_FLIGHT
      && 0 in t.inFlight.vals && 0 !in t.atOrigin
      && Waits(t, 7) && t.tasks[7] == Task(0, true, Verifying([8]))
  {
    hide Run, HandlePiece, UpdatePeerHave, ScheduleNext, Doubtful, Holder;
    var s := Initial(NINE_CHUNKS, {}, map[]);
    var a, b := Input(GotBitfield(p, PeerBits(9, {0})), DELIVERS), Input(Started, DELIVERS);
    var c, d := Input(GotPiece(0, 0, 1, [8]), DELIVERS), Input(GotHave(p, 0), DELIVERS);
    NoInputs(s);
    RunMore(s, [], a, HASH);
    assert [] + [a] == [a];
    AnnouncesFirst(p);
    RunMore(s, [a], b, HASH);
    var t := ScheduleNext(Idling(p, true), DELIVERS);
    FillsUp(Idling(p, true), p);
    FetchCount(Idling(p, true), t);
    RunMore(s, [a] + [b], c, HASH);
    FalseByte(t, p);
    RunMore(s, [a] + [b] + [c], d, HASH);
    AskedAgain(HandlePiece(t, 0, 0, 1, [8]), p);
  }

  /**
   * With eight requests outstanding the byte is refused: the chunk is now asked of the peer and of
   * the origin, and nine requests are outstanding.
   */
  lemma RefusedExample(p: PeerId)
    ensures var t := Run(Initial(NINE_CHUNKS, {}, map[]), Overlapping(p) + [Input(VerifyResolved(7), DELIVERS)], HASH);
      0 in t.inFlight.vals && 0 in t.atOrigin && Outstanding(t) == MAX_TOTAL_IN_FLIGHT + 1
  {
    hide Run, Overlapping, Outstanding;
    var s, last := Run(Initial(NINE_CHUNKS, {}, map[]), Overlapping(p), HASH), Input(VerifyResolved(7), DELIVERS);
    BeforeRefusal(p);
    RunMore(Initial(NINE_CHUNKS, {}, map[]), Overlapping(p), last, HASH);
    CapExactly(s, last, HASH);
    StepResumes(s, last, HASH);
  }
}
