/** Runs of downloads of one and of three chunks that show where the naive claims fail. */
module SchedulerExamples {
  import opened Bitfields
  import opened Bytes
  import opened OrderedMaps
  import opened SchedulerModel
  import opened SchedulerPass
  import opened SchedulerAtomic
  import opened SchedulerBytes
  import opened SchedulerLiveness
  import opened SchedulerPotential
  import Reassembling
  import opened SchedulerRetries
  import opened SchedulerTasks

  const DELIVERS: Sends := (c, p, r) => true

  const HASH: Bytes -> Digest := data => data

  /** One chunk, whose only byte is 7. */
  const ONE_CHUNK := Manifest(1, map[0 := [7]])

  /** One peer, which has announced the first chunk of `n`. */
  function Holder(p: PeerId, n: nat): OrderedMap<PeerId, PeerBits> {
    Empty<PeerId, PeerBits>().Set(p, PeerBits(n, {0}))
  }

  function Asking(p: PeerId): OrderedMap<nat, Request> {
    Empty<nat, Request>().Set(0, Request(p, 0))
  }

  /** The first chunk is missing, its only holder was not asked for it, and there is room to do so. */
  predicate Waiting(s: Scheduler, p: PeerId) {
    && 0 < s.manifest.total && s.have == {} && s.peers == Holder(p, s.manifest.total) && s.choked == map[p := false]
    && s.inFlight == Empty() && 0 !in s.atOrigin && |s.atOrigin| < MAX_TOTAL_IN_FLIGHT
  }

  lemma OneOffers(s: Scheduler, p: PeerId)
    requires Waiting(s, p)
    ensures Eligible(s, 0) == [p] && Idle(s, 0)
  {
    assert [p][..0] == [];
    assert Offers(s, p, 0);
    assert Offering(s, [p], 0) == Offering(s, [], 0) + [p];
  }

  lemma OneBelowLimit(s: Scheduler, p: PeerId)
    requires Waiting(s, p)
    ensures BelowLimit(s, [p]) == [p]
  {
    assert [p][..0] == [];
    assert Carried(s, p) == {};
    assert BelowLimit(s, [p]) == BelowLimit(s, []) + [p];
  }

  lemma OneListed(s: Scheduler, es: seq<Rarity>, available: bool)
    requires s.manifest.total == 1 && Idle(s, 0) && Lists(s, es, available)
    ensures es == if (RarityOf(s, 0).rarity > 0) == available then [RarityOf(s, 0)] else []
  {
    hide RarityOf;
    assert |es| > 1 ==> es[0].chunk != es[1].chunk;
    forall i | 0 <= i < |es| ensures es[i].chunk == 0 && es[i] == RarityOf(s, 0) {
      assert Idle(s, es[i].chunk);
    }
    assert |es| <= 1;
    if (RarityOf(s, 0).rarity > 0) == available {
      assert RarityOf(s, 0) in es;
    }
    if |es| == 1 {
      assert es == [es[0]];
    }
  }

  lemma OneTurn(s: Scheduler, p: PeerId)
    requires Waiting(s, p)
    ensures PeerTurn(s, Rarity(0, 1, [p]), DELIVERS) == s.(inFlight := Asking(p))
  {
    hide BelowLimit, ByLoad;
    OneBelowLimit(s, p);
    LeastLoaded(s, [p]);
    assert ByLoad(s, [p])[0] == p;
  }

  /** The scheduler asks the holder. */
  lemma AsksHolder(s: Scheduler, p: PeerId)
    requires Waiting(s, p) && s.running && s.manifest == ONE_CHUNK && s.atOrigin == {}
    ensures ScheduleNext(s, DELIVERS) == s.(inFlight := Asking(p))
  {
    hide PeerTurn, AvailableFromPeers, UnavailableFromPeers, Eligible;
    OneOffers(s, p);
    AvailableLists(s);
    UnavailableLists(s);
    OneListed(s, AvailableFromPeers(s), true);
    OneListed(s, UnavailableFromPeers(s), false);
    OneTurn(s, p);
    assert RarityOf(s, 0) == Rarity(0, 1, [p]);
    assert PeerPass(s, [RarityOf(s, 0)], 1, DELIVERS)
        == PeerTurn(PeerPass(s, [RarityOf(s, 0)], 0, DELIVERS), RarityOf(s, 0), DELIVERS);
    assert Pass(s, DELIVERS) == s.(inFlight := Asking(p));
    assert 0 !in s.have;
  }

  /** After the peer's BITFIELD and `start`. */
  function Begun(p: PeerId): seq<Input> {
    [Input(GotBitfield(p, PeerBits(1, {0})), DELIVERS), Input(Started, DELIVERS)]
  }

  function First(p: PeerId, running: bool, inFlight: OrderedMap<nat, Request>): Scheduler {
    Scheduler(ONE_CHUNK, running, {}, Holder(p, 1), map[p := false], inFlight, map[], {}, [], map[], [])
  }

  lemma RunMore(s: Scheduler, inputs: seq<Input>, last: Input, hash: Bytes -> Digest)
    ensures Run(s, inputs + [last], hash) == Step(Run(s, inputs, hash), last, hash)
  {
    hide Step;
    assert (inputs + [last])[..|inputs|] == inputs;
  }

  lemma NoInputs(s: Scheduler)
    ensures Run(s, [], HASH) == s
  {
  }

  lemma Announces(p: PeerId)
    ensures Step(Initial(ONE_CHUNK, {}, map[]), Input(GotBitfield(p, PeerBits(1, {0})), DELIVERS), HASH)
         == First(p, false, Empty())
  {
    assert !Initial(ONE_CHUNK, {}, map[]).running;
  }

  lemma BegunAsks(p: PeerId)
    ensures Run(Initial(ONE_CHUNK, {}, map[]), Begun(p), HASH) == First(p, true, Asking(p))
  {
    hide Run, Holder, Asking, ScheduleNext;
    var s := Initial(ONE_CHUNK, {}, map[]);
    var a, b := Input(GotBitfield(p, PeerBits(1, {0})), DELIVERS), Input(Started, DELIVERS);
    assert Begun(p) == ([] + [a]) + [b];
    RunMore(s, [], a, HASH);
    RunMore(s, [] + [a], b, HASH);
    NoInputs(s);
    Announces(p);
    AsksHolder(First(p, true, Empty()), p);
  }

  // ---------------------------------------------------------------- a block past the end

  lemma WithoutOnly(ks: seq<nat>, k: nat)
    requires ks == [k]
    ensures Without(ks, k) == []
  {
    assert ks[1..] == [];
  }

  lemma NothingAsked(p: PeerId)
    ensures Asking(p).Delete(0) == Empty()
  {
    var asking := Asking(p);
    assert asking.keys == [0] by {
      assert [] + [0] == [0];
    }
    WithoutOnly(asking.keys, 0);
    assert asking.vals - {0} == map[];
  }

  lemma OverrunDrops(p: PeerId)
    ensures HandlePiece(First(p, true, Asking(p)), 0, 1, 1, [7]) == First(p, true, Empty())
  {
    var item := Reassembling.AddBlock(Reassembling.Fresh(1), 1, [7]);
    assert item.parts.keys[0] == 1 && item.parts.vals[1] == [7];
    assert Reassembling.Overruns(item);
    NothingAsked(p);
  }

  /** A single byte placed behind the end of the last chunk leaves the download at rest. */
  lemma OverrunExample(p: PeerId)
    ensures Stalled(Run(Initial(ONE_CHUNK, {}, map[]), Begun(p) + [Input(GotPiece(0, 1, 1, [7]), DELIVERS)], HASH))
  {
    hide Run, HandlePiece, Begun, Holder;
    var last := Input(GotPiece(0, 1, 1, [7]), DELIVERS);
    BegunAsks(p);
    RunMore(Initial(ONE_CHUNK, {}, map[]), Begun(p), last, HASH);
    StepIsPiece(First(p, true, Asking(p)), last, HASH);
    OverrunDrops(p);
    assert 0 !in First(p, true, Empty()).have;
  }

  // ---------------------------------------------------------------- a chunk asked for twice

  /** The state with these tasks, requests and reports. */
  function Second(p: PeerId, have: set<nat>, inFlight: OrderedMap<nat, Request>, tasks: seq<Task>,
                  log: seq<Output>): Scheduler {
    Scheduler(ONE_CHUNK, true, have, Holder(p, 1), map[p := false], inFlight, map[], {}, tasks,
              if have == {} then map[] else map[0 := [7]], log)
  }

  function Checking(phase: Phase): Task {
    Task(0, true, phase)
  }

  const ONE_REPORT: seq<Output> := [HaveSent(0), Completed(0, true, 1), DownloadComplete]

  /** A chunk of one byte in one block. */
  lemma OneByte(b: bv8)
    ensures var item := Reassembling.AddBlock(Reassembling.Fresh(1), 0, [b]);
      Reassembling.Complete(item) && !Reassembling.Overruns(item) && Reassembling.Assembled(item) == [b]
  {
    var item := Reassembling.AddBlock(Reassembling.Fresh(1), 0, [b]);
    assert item.parts.keys == [0] && item.parts.vals[0] == [b];
    assert !Reassembling.Overruns(item);
    assert Reassembling.Copied(item, 1) == Reassembling.Overlay(Reassembling.Copied(item, 0), 0, [b]);
    assert Reassembling.Assembled(item) == [b];
  }

  lemma PieceChecks(p: PeerId, have: set<nat>, tasks: seq<Task>, log: seq<Output>)
    ensures HandlePiece(Second(p, have, Asking(p), tasks, log), 0, 0, 1, [7]) ==
      Second(p, have, Empty(), tasks + [Checking(Verifying([7]))], log)
  {
    hide Reassembling.Complete, Reassembling.Overruns, Reassembling.Assembled, Reassembling.AddBlock, Holder, Asking;
    OneByte(7);
    AskingHolder(p);
    NothingAsked(p);
  }

  lemma HaveAsks(p: PeerId)
    ensures UpdatePeerHave(Second(p, {}, Empty(), [Checking(Verifying([7]))], []), p, 0, DELIVERS) ==
      Second(p, {}, Asking(p), [Checking(Verifying([7]))], [])
  {
    hide ScheduleNext;
    var s := Second(p, {}, Empty(), [Checking(Verifying([7]))], []);
    assert PeerBits(1, {0}).bits + {0} == {0};
    assert s.peers.Set(p, PeerBits(1, {0})) == Holder(p, 1);
    AsksHolder(s, p);
  }

  lemma CheckPasses(p: PeerId, have: set<nat>, inFlight: OrderedMap<nat, Request>, tasks: seq<Task>,
                    log: seq<Output>, i: nat)
    requires i < |tasks| && tasks[i] == Checking(Verifying([7]))
    ensures Verified(Second(p, have, inFlight, tasks, log), i, HASH) ==
      Second(p, have, inFlight, tasks[i := Checking(Storing([7]))], log)
  {
  }

  lemma WriteReports(p: PeerId, have: set<nat>, inFlight: OrderedMap<nat, Request>, tasks: seq<Task>,
                     log: seq<Output>, i: nat)
    requires i < |tasks| && tasks[i] == Checking(Storing([7])) && have <= {0}
    ensures Stored(Second(p, have, inFlight, tasks, log), i) ==
      Second(p, {0}, inFlight, tasks[i := Checking(Settling)], log + ONE_REPORT)
  {
    var s := Second(p, have, inFlight, tasks, log);
    assert have + {0} == {0} && s.store[0 := [7]] == map[0 := [7]];
    assert log + [HaveSent(0), Completed(0, true, 1)] + [DownloadComplete] == log + ONE_REPORT;
    assert Full({0}, 1);
  }

  /** The chunk arrives, is asked for again while it is being verified, and arrives again. */
  function Twice(p: PeerId): seq<Input> {
    Begun(p) + [Input(GotPiece(0, 0, 1, [7]), DELIVERS)] + [Input(GotHave(p, 0), DELIVERS)]
    + [Input(VerifyResolved(0), DELIVERS)] + [Input(PutResolved(0), DELIVERS)]
    + [Input(GotPiece(0, 0, 1, [7]), DELIVERS)] + [Input(VerifyResolved(1), DELIVERS)]
    + [Input(PutResolved(1), DELIVERS)]
  }

  lemma HalfTwice(p: PeerId)
    ensures Run(Initial(ONE_CHUNK, {}, map[]),
                Begun(p) + [Input(GotPiece(0, 0, 1, [7]), DELIVERS)] + [Input(GotHave(p, 0), DELIVERS)]
                + [Input(VerifyResolved(0), DELIVERS)] + [Input(PutResolved(0), DELIVERS)], HASH)
      == Second(p, {0}, Asking(p), [Checking(Settling)], ONE_REPORT)
  {
    hide Run, HandlePiece, UpdatePeerHave, Verified, Stored, Begun, Holder, Asking;
    var s := Initial(ONE_CHUNK, {}, map[]);
    var a, b := Begun(p) + [Input(GotPiece(0, 0, 1, [7]), DELIVERS)], Input(GotHave(p, 0), DELIVERS);
    BegunAsks(p);
    RunMore(s, Begun(p), Input(GotPiece(0, 0, 1, [7]), DELIVERS), HASH);
    PieceChecks(p, {}, [], []);
    assert [] + [Checking(Verifying([7]))] == [Checking(Verifying([7]))];
    RunMore(s, a, b, HASH);
    HaveAsks(p);
    RunMore(s, a + [b], Input(VerifyResolved(0), DELIVERS), HASH);
    CheckPasses(p, {}, Asking(p), [Checking(Verifying([7]))], [], 0);
    assert [Checking(Verifying([7]))][0 := Checking(Storing([7]))] == [Checking(Storing([7]))];
    RunMore(s, a + [b] + [Input(VerifyResolved(0), DELIVERS)], Input(PutResolved(0), DELIVERS), HASH);
    WriteReports(p, {}, Asking(p), [Checking(Storing([7]))], [], 0);
    assert [Checking(Storing([7]))][0 := Checking(Settling)] == [Checking(Settling)];
    assert [] + ONE_REPORT == ONE_REPORT;
  }

  lemma BegunLength(p: PeerId)
    ensures |Begun(p)| == 2
  {
  }

  lemma AskingZero(p: PeerId)
    ensures 0 in Asking(p).vals
  {
  }

  lemma NoReports()
    ensures Reported([]) == [] && BytesFrom([], true) == 0
  {
  }

  lemma ReportMore(log: seq<Output>)
    ensures Reported(log + ONE_REPORT) == Reported(log) + [0]
    ensures BytesFrom(log + ONE_REPORT, true) == BytesFrom(log, true) + 1
  {
    var a, b, c := HaveSent(0), Completed(0, true, 1), DownloadComplete;
    LogGrows(log, a);
    LogGrows(log + [a], b);
    LogGrows(log + [a] + [b], c);
    assert log + ONE_REPORT == log + [a] + [b] + [c];
  }

  lemma TwoReports()
    ensures Reported(ONE_REPORT + ONE_REPORT) == [0, 0] && BytesFrom(ONE_REPORT + ONE_REPORT, true) == 2
  {
    hide Reported, BytesFrom;
    ReportMore([]);
    ReportMore(ONE_REPORT);
    NoReports();
    assert [] + ONE_REPORT == ONE_REPORT;
  }

  /**
   * Across awaits a chunk can be possessed and in flight at once, and then be reported twice:
   * the counters claim two bytes for a download of one.
   */
  lemma TwiceExample(p: PeerId)
    ensures var t := Run(Initial(ONE_CHUNK, {}, map[]), Twice(p), HASH);
      && Reported(t.log) == [0, 0]
      && BytesFrom(t.log, true) == 2 && t.store == map[0 := [7]]
    ensures var s := Run(Initial(ONE_CHUNK, {}, map[]), Twice(p)[..6], HASH);
      0 in s.have && 0 in s.inFlight.vals
  {
    hide Run, HandlePiece, Verified, Stored, Begun, Holder, Asking;
    var s := Initial(ONE_CHUNK, {}, map[]);
    var half := Begun(p) + [Input(GotPiece(0, 0, 1, [7]), DELIVERS)] + [Input(GotHave(p, 0), DELIVERS)]
      + [Input(VerifyResolved(0), DELIVERS)] + [Input(PutResolved(0), DELIVERS)];
    var a, b := Input(GotPiece(0, 0, 1, [7]), DELIVERS), Input(VerifyResolved(1), DELIVERS);
    HalfTwice(p);
    RunMore(s, half, a, HASH);
    PieceChecks(p, {0}, [Checking(Settling)], ONE_REPORT);
    var tasks := [Checking(Settling)] + [Checking(Verifying([7]))];
    RunMore(s, half + [a], b, HASH);
    CheckPasses(p, {0}, Empty(), tasks, ONE_REPORT, 1);
    RunMore(s, half + [a] + [b], Input(PutResolved(1), DELIVERS), HASH);
    WriteReports(p, {0}, Empty(), tasks[1 := Checking(Storing([7]))], ONE_REPORT, 1);
    TwoReports();
    BegunLength(p);
    assert Twice(p)[..6] == half;
    AskingZero(p);
  }

  // ---------------------------------------------------------------- a report after the stop

  lemma WritesWhenStopped(p: PeerId)
    ensures var s := Stop(Second(p, {}, Empty(), [Checking(Verifying([7]))], []));
      var t := Stored(Verified(s, 0, HASH), 0);
      !t.running && Completed(0, true, 1) in t.log
  {
    hide Holder;
    var s := Stop(Second(p, {}, Empty(), [Checking(Verifying([7]))], []));
    assert Authentic(s.manifest, HASH, 0, [7]);
    var t := Verified(s, 0, HASH);
    assert !t.running && t.tasks[0] == Checking(Storing([7]));
    StoredAccepts(t, 0);
  }

  /** A download is stopped while its chunk is hashed, and reports the chunk all the same. */
  lemma LateExample(p: PeerId)
    ensures var t := Run(Initial(ONE_CHUNK, {}, map[]),
                         Begun(p) + [Input(GotPiece(0, 0, 1, [7]), DELIVERS)] + [Input(Stopped, DELIVERS)]
                         + [Input(VerifyResolved(0), DELIVERS)] + [Input(PutResolved(0), DELIVERS)], HASH);
      !t.running && Completed(0, true, 1) in t.log
  {
    hide Run, HandlePiece, Verified, Stored, Stop, Begun, Holder, Asking;
    var s := Initial(ONE_CHUNK, {}, map[]);
    var a, b := Input(GotPiece(0, 0, 1, [7]), DELIVERS), Input(Stopped, DELIVERS);
    var c, d := Input(VerifyResolved(0), DELIVERS), Input(PutResolved(0), DELIVERS);
    BegunAsks(p);
    RunMore(s, Begun(p), a, HASH);
    PieceChecks(p, {}, [], []);
    assert [] + [Checking(Verifying([7]))] == [Checking(Verifying([7]))];
    RunMore(s, Begun(p) + [a], b, HASH);
    RunMore(s, Begun(p) + [a] + [b], c, HASH);
    RunMore(s, Begun(p) + [a] + [b] + [c], d, HASH);
    WritesWhenStopped(p);
  }

  // ---------------------------------------------------------------- a retry with the same peer

  lemma AskingHolder(p: PeerId)
    ensures 0 in Asking(p).vals && Asking(p).vals[0] == Request(p, 0)
  {
  }

  lemma HolderIsFirstChoice(p: PeerId)
    ensures FirstChoice(Abandon(First(p, true, Asking(p)), 0), 0, p)
  {
    var s := Abandon(First(p, true, Asking(p)), 0);
    forall q | Offers(s, q, 0) ensures q == p {
    }
    NotBeforeItself(s, p);
  }

  /** The holder lets the request time out, and is asked again. */
  lemma TimeoutExample(p: PeerId)
    ensures var t := Run(Initial(ONE_CHUNK, {}, map[]), Begun(p) + [Input(TimedOut(0), DELIVERS)], HASH);
      0 in t.inFlight.vals && t.inFlight.vals[0].peer == p
  {
    hide Run, Begun, Holder, Asking, HandleTimeout, FirstChoice;
    var s, last := First(p, true, Asking(p)), Input(TimedOut(0), DELIVERS);
    BegunAsks(p);
    RunMore(Initial(ONE_CHUNK, {}, map[]), Begun(p), last, HASH);
    AskingHolder(p);
    HolderIsFirstChoice(p);
    TimeoutAsksSamePeerExactly(s, 0, DELIVERS);
    assert DELIVERS(0, p, 1);
  }

  // ---------------------------------------------------------------- a third request

  /** Three chunks, of which `p` has all and `q` the last. */
  const THREE_CHUNKS := Manifest(3, map[])

  function Three(peers: OrderedMap<PeerId, PeerBits>, choked: map<PeerId, bool>, running: bool,
                 inFlight: OrderedMap<nat, Request>): Scheduler {
    Scheduler(THREE_CHUNKS, running, {}, peers, choked, inFlight, map[], {}, [], map[], [])
  }

  function All(p: PeerId): OrderedMap<PeerId, PeerBits> {
    Empty<PeerId, PeerBits>().Set(p, PeerBits(3, {0, 1, 2}))
  }

  function Asked(p: PeerId, n: nat): OrderedMap<nat, Request> {
    if n == 0 then Empty() else Asked(p, n - 1).Set(n - 1, Request(p, 0))
  }

  lemma {:induction false} AskedUpTo(p: PeerId, n: nat)
    ensures forall c: nat :: c in Asked(p, n).vals <==> c < n
    ensures forall c: nat :: c < n ==> Asked(p, n).vals[c] == Request(p, 0)
  {
    if n == 0 {
    } else {
      AskedUpTo(p, n - 1);
    }
  }

  lemma {:induction false} AskedLoad(p: PeerId, n: nat, q: PeerId)
    ensures |AskedOf(Asked(p, n).vals, q)| == if q == p then n else 0
  {
    if n == 0 {
      assert AskedOf(Asked(p, 0).vals, q) == {};
    } else {
      AskedUpTo(p, n - 1);
      AskedLoad(p, n - 1, q);
      AskedOneMore(Asked(p, n - 1).vals, n - 1, Request(p, 0), q);
    }
  }

  lemma {:induction false} SelectsAll(es: seq<Rarity>)
    requires forall e :: e in es ==> e.rarity > 0
    ensures Select(es, true) == es && Select(es, false) == []
  {
    if es == [] {
    } else {
      SelectsAll(es[..|es| - 1]);
      assert es[|es| - 1] in es;
    }
  }

  lemma {:induction false} SortedAlready(es: seq<Rarity>)
    requires forall i, j :: 0 <= i < j < |es| ==> es[i].rarity <= es[j].rarity
    ensures ByRarity(es) == es
  {
    if es == [] {
    } else {
      SortedAlready(es[..|es| - 1]);
    }
  }

  /** With a holder for each candidate, and the rarest listed first, a pass is its first loop. */
  lemma PassIs(s: Scheduler, cs: seq<nat>, sends: Sends)
    requires Candidates(s) == cs && forall i :: 0 <= i < |cs| ==> Eligible(s, cs[i]) != []
    requires forall i, j :: 0 <= i < j < |cs| ==> |Eligible(s, cs[i])| <= |Eligible(s, cs[j])|
    ensures |RarityMap(s, cs)| == |cs|
    ensures Pass(s, sends) == PeerPass(s, RarityMap(s, cs), |cs|, sends)
    ensures forall i :: 0 <= i < |cs| ==> RarityMap(s, cs)[i] == RarityOf(s, cs[i])
  {
    hide Eligible;
    RarityMapAt(s, cs);
    SelectsAll(RarityMap(s, cs));
    SortedAlready(RarityMap(s, cs));
  }

  lemma ThreeMissing()
    ensures MissingBelow({}, 3) == [0, 1, 2]
  {
    hide MissingBelow, AvailableBelow;
    ListsStart({});
    ListsStep({}, 0);
    ListsStep({}, 1);
    ListsStep({}, 2);
  }

  lemma NotOutstandingPlus(s: Scheduler, cs: seq<nat>, c: nat)
    ensures NotOutstanding(s, cs + [c]) == NotOutstanding(s, cs) + if IsOutstanding(s, c) then [] else [c]
  {
    hide *;
    NotOutstandingMore(s, cs, c);
  }

  lemma Pairs<T>(x: T, y: T)
    ensures [] + [x] == [x] && [x] + [y] == [x, y]
  {
  }

  lemma OfThree(s: Scheduler)
    ensures NotOutstanding(s, [0, 1, 2]) ==
      (if IsOutstanding(s, 0) then [] else [0]) + (if IsOutstanding(s, 1) then [] else [1])
      + (if IsOutstanding(s, 2) then [] else [2])
  {
    hide *;
    NothingListed(s);
    NotOutstandingPlus(s, [], 0);
    assert [] + [0] == [0] && NotOutstanding(s, [0]) == if IsOutstanding(s, 0) then [] else [0];
    NotOutstandingPlus(s, [0], 1);
    NotOutstandingPlus(s, [0, 1], 2);
    Pairs(0, 1);
    assert [0, 1] + [2] == [0, 1, 2];
  }

  lemma CandidatesAre(s: Scheduler)
    requires s.manifest.total == 3 && s.have == {}
    ensures Candidates(s) ==
      (if IsOutstanding(s, 0) then [] else [0]) + (if IsOutstanding(s, 1) then [] else [1])
      + (if IsOutstanding(s, 2) then [] else [2])
  {
    hide NotOutstanding, MissingBelow, IsOutstanding;
    ThreeMissing();
    OfThree(s);
  }

  lemma OnlyHolder(s: Scheduler, p: PeerId, c: nat)
    requires s.peers == All(p) && s.choked == map[p := false] && c < 3
    ensures Eligible(s, c) == [p]
  {
    assert s.peers.keys == [p];
    assert [p][..0] == [];
    assert Offering(s, [p], c) == Offering(s, [], c) + [p];
  }

  function Started3(p: PeerId, n: nat): Scheduler {
    Three(All(p), map[p := false], true, Asked(p, n))
  }

  lemma FewAsked(p: PeerId, n: nat)
    requires n < 3
    ensures |Asked(p, n).vals| <= 3
  {
    hide Asked;
    AskedUpTo(p, n);
    assert Asked(p, n).vals.Keys <= {0, 1, 2};
    SubsetSmaller(Asked(p, n).vals.Keys, {0, 1, 2});
  }

  lemma StartedLoads(p: PeerId, n: nat)
    requires n < 3
    ensures Load(Started3(p, n), p) == n && Outstanding(Started3(p, n)) < MAX_TOTAL_IN_FLIGHT
  {
    hide Asked, AskedOf;
    AskedLoad(p, n, p);
    FewAsked(p, n);
  }

  lemma AskedNext(p: PeerId, n: nat)
    ensures Asked(p, n + 1) == Asked(p, n).Set(n, Request(p, 0))
  {
  }

  lemma OneFree(s: Scheduler, p: PeerId)
    ensures BelowLimit(s, [p]) == if Load(s, p) < MAX_IN_FLIGHT_PER_PEER then [p] else []
  {
    hide Load;
    assert [p][..0] == [];
    assert BelowLimit(s, [p]) == BelowLimit(s, []) + if Load(s, p) < MAX_IN_FLIGHT_PER_PEER then [p] else [];
  }

  lemma TurnAsks(p: PeerId, n: nat)
    requires n < 3
    ensures PeerTurn(Started3(p, n), Rarity(n, 1, [p]), DELIVERS) == Started3(p, if n < 2 then n + 1 else n)
  {
    hide ByLoad, BelowLimit, Asked, Load, Outstanding;
    var s := Started3(p, n);
    StartedLoads(p, n);
    OneFree(s, p);
    if n < 2 {
      AskedNext(p, n);
      LeastLoaded(s, [p]);
      assert ByLoad(s, [p])[0] == p;
    }
  }

  lemma StartedMisses(p: PeerId)
    ensures Candidates(Started3(p, 0)) == [0, 1, 2] && forall c: nat :: c < 3 ==> Eligible(Started3(p, 0), c) == [p]
  {
    hide Candidates, Eligible;
    var s := Started3(p, 0);
    CandidatesAre(s);
    forall c: nat | c < 3 ensures Eligible(s, c) == [p] {
      OnlyHolder(s, p, c);
    }
  }

  lemma StartedRuns(p: PeerId)
    ensures ScheduleNext(Started3(p, 0), DELIVERS) == Pass(Started3(p, 0), DELIVERS)
  {
    hide Pass;
    assert 0 !in Started3(p, 0).have;
  }

  /** Two of the three chunks are asked of the only holder. */
  lemma AsksTwo(p: PeerId)
    ensures ScheduleNext(Started3(p, 0), DELIVERS) == Started3(p, 2)
  {
    hide PeerTurn, Eligible, Candidates, Pass, Asked, Started3, RarityMap;
    var s := Started3(p, 0);
    var es := RarityMap(s, [0, 1, 2]);
    StartedMisses(p);
    PassIs(s, [0, 1, 2], DELIVERS);
    assert es[0] == Rarity(0, 1, [p]) && es[1] == Rarity(1, 1, [p]) && es[2] == Rarity(2, 1, [p]);
    TurnAsks(p, 0);
    TurnAsks(p, 1);
    TurnAsks(p, 2);
    assert PeerPass(s, es, 1, DELIVERS) == PeerTurn(PeerPass(s, es, 0, DELIVERS), es[0], DELIVERS);
    assert PeerPass(s, es, 2, DELIVERS) == PeerTurn(PeerPass(s, es, 1, DELIVERS), es[1], DELIVERS);
    assert PeerPass(s, es, 3, DELIVERS) == PeerTurn(PeerPass(s, es, 2, DELIVERS), es[2], DELIVERS);
    StartedRuns(p);
  }

  lemma NothingAskedYet(p: PeerId)
    ensures Asked(p, 0) == Empty()
  {
  }

  /** The second peer has announced the last chunk. */
  function Joined3(p: PeerId, q: PeerId, inFlight: OrderedMap<nat, Request>): Scheduler {
    Three(All(p).Set(q, PeerBits(3, {2})), map[p := false, q := false], true, inFlight)
  }

  lemma JoinedOffers(p: PeerId, q: PeerId, inFlight: OrderedMap<nat, Request>)
    requires p != q
    ensures var s := Joined3(p, q, inFlight); s.peers.keys == [p, q] && Offers(s, p, 2) && Offers(s, q, 2)
  {
    assert All(p).keys == [p];
    Pairs(p, q);
  }

  lemma BothHold(p: PeerId, q: PeerId, inFlight: OrderedMap<nat, Request>)
    requires p != q
    ensures Eligible(Joined3(p, q, inFlight), 2) == [p, q]
  {
    hide Joined3, Offers, Offering;
    var s := Joined3(p, q, inFlight);
    JoinedOffers(p, q, inFlight);
    NothingListed(s);
    OfferingMore(s, [], p, 2);
    OfferingMore(s, [p], q, 2);
    Pairs(p, q);
  }

  lemma JoinedLoads(p: PeerId, q: PeerId)
    requires p != q
    ensures var s := Joined3(p, q, Asked(p, 2));
      Load(s, p) == 2 && Load(s, q) == 0 && Outstanding(s) < MAX_TOTAL_IN_FLIGHT
  {
    hide Asked, All, AskedOf;
    AskedLoad(p, 2, p);
    AskedLoad(p, 2, q);
    FewAsked(p, 2);
  }

  lemma SecondFree(p: PeerId, q: PeerId)
    requires p != q
    ensures BelowLimit(Joined3(p, q, Asked(p, 2)), [p, q]) == [q]
  {
    hide Asked, BelowLimit, Joined3, Load;
    var s := Joined3(p, q, Asked(p, 2));
    JoinedLoads(p, q);
    NothingListed(s);
    BelowLimitMore(s, [], p);
    BelowLimitMore(s, [p], q);
    Pairs(p, q);
    Pairs(q, p);
  }

  lemma JoinedMisses(p: PeerId, q: PeerId)
    ensures Candidates(Joined3(p, q, Asked(p, 2))) == [2]
  {
    hide Asked, Candidates, All;
    var s := Joined3(p, q, Asked(p, 2));
    AskedUpTo(p, 2);
    CandidatesAre(s);
    assert IsOutstanding(s, 0) && IsOutstanding(s, 1) && !IsOutstanding(s, 2);
  }

  lemma SecondTurn(p: PeerId, q: PeerId)
    requires p != q
    ensures PeerTurn(Joined3(p, q, Asked(p, 2)), Rarity(2, 2, [p, q]), DELIVERS) ==
      Joined3(p, q, Asked(p, 2).Set(2, Request(q, 0)))
  {
    hide Asked, BelowLimit, ByLoad, Load, Outstanding, All;
    var s := Joined3(p, q, Asked(p, 2));
    JoinedLoads(p, q);
    SecondFree(p, q);
    LeastLoaded(s, [q]);
    assert ByLoad(s, [q])[0] == q;
  }

  lemma JoinedRuns(p: PeerId, q: PeerId)
    requires p != q
    ensures ScheduleNext(Joined3(p, q, Asked(p, 2)), DELIVERS) == Pass(Joined3(p, q, Asked(p, 2)), DELIVERS)
  {
    hide Pass, Asked, All, Outstanding, Load;
    JoinedLoads(p, q);
    assert 0 !in Joined3(p, q, Asked(p, 2)).have;
  }

  /** The last chunk is asked of the second peer, for the first one carries two requests. */
  lemma AsksSecond(p: PeerId, q: PeerId)
    requires p != q
    ensures ScheduleNext(Joined3(p, q, Asked(p, 2)), DELIVERS) == Joined3(p, q, Asked(p, 2).Set(2, Request(q, 0)))
  {
    hide Asked, PeerTurn, Eligible, Candidates, Pass, Outstanding, Joined3, RarityMap;
    var s := Joined3(p, q, Asked(p, 2));
    var es := RarityMap(s, [2]);
    JoinedMisses(p, q);
    BothHold(p, q, Asked(p, 2));
    PassIs(s, [2], DELIVERS);
    assert es[0] == Rarity(2, 2, [p, q]);
    assert PeerPass(s, es, 1, DELIVERS) == PeerTurn(PeerPass(s, es, 0, DELIVERS), es[0], DELIVERS);
    SecondTurn(p, q);
    JoinedRuns(p, q);
  }

  lemma ThreeKeys(p: PeerId, q: PeerId)
    ensures Asked(p, 2).Set(2, Request(q, 0)).keys == [0, 1, 2]
  {
    AskedUpTo(p, 1);
    AskedUpTo(p, 2);
    assert Asked(p, 1).keys == [0] by {
      assert Asked(p, 0).keys + [0] == [0];
    }
    assert Asked(p, 2).keys == [0, 1];
  }

  lemma {:induction false} WithoutLast<K(!new)>(ks: seq<K>, k: K)
    requires k !in ks
    ensures Without(ks + [k], k) == ks
  {
    if ks == [] {
      assert (ks + [k])[1..] == [];
    } else {
      WithoutLast(ks[1..], k);
      assert (ks + [k])[1..] == ks[1..] + [k];
    }
  }

  lemma SetThenDelete<K(!new), V>(m: OrderedMap<K, V>, k: K, v: V)
    requires k !in m.vals
    ensures m.Set(k, v).Delete(k) == m
  {
    assert k !in m.keys by {
      assert k in m.keys ==> k in m.vals.Keys;
    }
    WithoutLast(m.keys, k);
    assert m.vals[k := v] - {k} == m.vals;
  }

  lemma SecondForgotten(p: PeerId, q: PeerId)
    requires p != q
    ensures All(p).Set(q, PeerBits(3, {2})).Delete(q) == All(p)
  {
    SetThenDelete(All(p), q, PeerBits(3, {2}));
  }

  lemma ThirdAbandoned(p: PeerId, q: PeerId)
    ensures Asked(p, 2).Set(2, Request(q, 0)).Delete(2) == Asked(p, 2)
  {
    hide Asked;
    AskedUpTo(p, 2);
    SetThenDelete(Asked(p, 2), 2, Request(q, 0));
  }

  /** The last chunk is given up when the second peer is forgotten. */
  lemma ForgetsSecond(p: PeerId, q: PeerId)
    requires p != q
    ensures var lost := Asked(p, 2).Set(2, Request(q, 0));
      Abandon(Forget(Joined3(p, q, lost), q), 2) == Started3(p, 2)
  {
    hide Asked, All;
    SecondForgotten(p, q);
    ThirdAbandoned(p, q);
    assert map[p := false, q := false] - {q} == map[p := false];
  }

  /** The first peer is then asked for it, its third. */
  lemma AsksThird(p: PeerId)
    ensures Load(ScheduleChunk(Started3(p, 2), 2, 1, DELIVERS), p) == 3
  {
    hide Asked, Load, Eligible, ByLoad;
    var s := Started3(p, 2);
    OnlyHolder(s, p, 2);
    LeastLoaded(s, [p]);
    assert ByLoad(s, [p])[0] == p;
    AskedUpTo(p, 2);
    StartedLoads(p, 2);
    AskingLoads(s, 2, p, 1, p);
  }

  lemma NoMoreAsked(s: Scheduler, p: PeerId)
    requires s.running && !Complete(s) && Load(s, p) >= 2
    ensures Load(ScheduleNext(s, DELIVERS), p) == Load(s, p)
  {
    hide Load, Pass;
    PassWithinLimit(s, DELIVERS);
    PassGrows(s, DELIVERS);
    LoadsGrow(s, Pass(s, DELIVERS), p);
  }

  lemma JoinedRequests(p: PeerId, q: PeerId, inFlight: OrderedMap<nat, Request>)
    ensures Joined3(p, q, inFlight).inFlight == inFlight
  {
  }

  lemma RemovalSchedules(s: Scheduler, q: PeerId)
    ensures var t := Requeue(Forget(s, q), s.inFlight, q, |s.inFlight.keys|, DELIVERS);
      t.running ==> RemovePeer(s, q, DELIVERS) == ScheduleNext(t, DELIVERS)
  {
    hide Requeue, Forget, ScheduleNext;
  }

  lemma StillMissing(p: PeerId)
    ensures var t := ScheduleChunk(Started3(p, 2), 2, 1, DELIVERS); t.running && !Complete(t)
  {
    hide ScheduleChunk;
    ChunkPlaces(Started3(p, 2), 2, 1, DELIVERS);
    assert 0 !in Started3(p, 2).have;
  }

  lemma RequeueThird(s: Scheduler, lost: OrderedMap<nat, Request>, p: PeerId, q: PeerId)
    requires p != q && lost.keys == [0, 1, 2] && 0 in lost.vals && 1 in lost.vals && 2 in lost.vals
    requires lost.vals[0].peer == lost.vals[1].peer == p && lost.vals[2] == Request(q, 0)
    ensures Requeue(s, lost, q, 3, DELIVERS) == ScheduleChunk(Abandon(s, 2), 2, 1, DELIVERS)
  {
    hide ScheduleChunk, Abandon;
    assert Requeue(s, lost, q, 0, DELIVERS) == s;
    assert Requeue(s, lost, q, 1, DELIVERS) == s;
    assert Requeue(s, lost, q, 2, DELIVERS) == s;
  }

  lemma RequestMoves(p: PeerId, q: PeerId)
    requires p != q
    ensures RemovePeer(Joined3(p, q, Asked(p, 2).Set(2, Request(q, 0))), q, DELIVERS) ==
      ScheduleNext(ScheduleChunk(Started3(p, 2), 2, 1, DELIVERS), DELIVERS)
  {
    hide *;
    var lost := Asked(p, 2).Set(2, Request(q, 0));
    var s := Joined3(p, q, lost);
    JoinedRequests(p, q, lost);
    ThreeKeys(p, q);
    AskedUpTo(p, 2);
    RequeueThird(Forget(s, q), lost, p, q);
    ForgetsSecond(p, q);
    StillMissing(p);
    RemovalSchedules(s, q);
  }

  lemma LosesSecond(p: PeerId, q: PeerId)
    requires p != q
    ensures Load(RemovePeer(Joined3(p, q, Asked(p, 2).Set(2, Request(q, 0))), q, DELIVERS), p) == 3
  {
    hide Asked, Load, ScheduleNext, ScheduleChunk, RemovePeer, Started3, Joined3, Complete;
    var t := ScheduleChunk(Started3(p, 2), 2, 1, DELIVERS);
    RequestMoves(p, q);
    AsksThird(p);
    StillMissing(p);
    NoMoreAsked(t, p);
  }

  lemma Announces3(p: PeerId)
    ensures Step(Initial(THREE_CHUNKS, {}, map[]), Input(GotBitfield(p, PeerBits(3, {0, 1, 2})), DELIVERS), HASH) ==
      Three(All(p), map[p := false], false, Empty())
  {
  }

  lemma Starts3(p: PeerId)
    ensures Step(Three(All(p), map[p := false], false, Empty()), Input(Started, DELIVERS), HASH) == Started3(p, 2)
  {
    hide ScheduleNext;
    NothingAskedYet(p);
    AsksTwo(p);
  }

  lemma StepAnnounced(s: Scheduler, q: PeerId, bits: PeerBits)
    ensures Step(s, Input(GotBitfield(q, bits), DELIVERS), HASH) == UpdatePeerBitfield(s, q, bits, DELIVERS)
  {
    hide UpdatePeerBitfield;
  }

  lemma Joins3(p: PeerId, q: PeerId)
    requires p != q
    ensures Step(Started3(p, 2), Input(GotBitfield(q, PeerBits(3, {2})), DELIVERS), HASH) ==
      Joined3(p, q, Asked(p, 2).Set(2, Request(q, 0)))
  {
    hide ScheduleNext, Asked, All;
    StepAnnounced(Started3(p, 2), q, PeerBits(3, {2}));
    AsksSecond(p, q);
  }

  lemma StepLost(s: Scheduler, q: PeerId)
    ensures Step(s, Input(LostPeer(q), DELIVERS), HASH) == RemovePeer(s, q, DELIVERS)
  {
    hide RemovePeer;
  }

  /**
   * A third request to one peer: it is asked for two of three chunks, another peer for the last
   * one, and when that peer leaves the first one is asked for its chunk as well.
   */
  lemma ThirdRequestExample(p: PeerId, q: PeerId)
    requires p != q
    ensures Load(Run(Initial(THREE_CHUNKS, {}, map[]),
                     [Input(GotBitfield(p, PeerBits(3, {0, 1, 2})), DELIVERS)] + [Input(Started, DELIVERS)]
                     + [Input(GotBitfield(q, PeerBits(3, {2})), DELIVERS)] + [Input(LostPeer(q), DELIVERS)],
                     HASH), p) == 3
  {
    hide Run, Step, Load, RemovePeer, Asked, Started3, Joined3, Three, All;
    var s := Initial(THREE_CHUNKS, {}, map[]);
    var a, b := Input(GotBitfield(p, PeerBits(3, {0, 1, 2})), DELIVERS), Input(Started, DELIVERS);
    var c, d := Input(GotBitfield(q, PeerBits(3, {2})), DELIVERS), Input(LostPeer(q), DELIVERS);
    NoInputs(s);
    assert [] + [a] == [a];
    RunMore(s, [], a, HASH);
    RunMore(s, [a], b, HASH);
    RunMore(s, [a] + [b], c, HASH);
    RunMore(s, [a] + [b] + [c], d, HASH);
    Announces3(p);
    Starts3(p);
    Joins3(p, q);
    StepLost(Joined3(p, q, Asked(p, 2).Set(2, Request(q, 0))), q);
    LosesSecond(p, q);
  }
}
