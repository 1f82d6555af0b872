/** The backpressure queue in front of one data channel, which may throw whenever it is given a frame. */
module SendQueues {
  import opened Bytes

  const BUFFER_LOW_THRESHOLD: nat := 65536

  const BUFFER_HIGH_WATERMARK: nat := 196608

  datatype ReadyState = Absent | Connecting | Open | Closed

  /** A connection and its channel. `lowPending` is a queued `bufferedamountlow` event. */
  datatype Connection = Connection(
    isClosed: bool,
    sendQueue: seq<Bytes>,
    channel: ReadyState,
    bufferedAmount: nat,
    lowPending: bool,
    wire: seq<Bytes>,      // the frames that the channel took, in order
    taken: nat,            // the bytes that left the channel's buffer
    accepted: seq<Bytes>,  // the frames for which `send` returned true
    held: seq<Bytes>,      // the frames that `send` passed on or queued, in order
    fates: seq<bool>)      // of each that is no longer queued: whether the channel took it

  /** `RTCDataChannel.send` */
  function Transmit(s: Connection, frame: Bytes): Connection {
    s.(wire := s.wire + [frame], fates := s.fates + [true], bufferedAmount := s.bufferedAmount + |frame|)
  }

  function Shifted(s: Connection): Connection
    requires s.sendQueue != []
  {
    s.(sendQueue := s.sendQueue[1..])
  }

  /** The channel takes `good` frames and throws at the next, which has left the queue by then. */
  function Drained(s: Connection, good: nat): Connection
    decreases |s.sendQueue|
  {
    if s.sendQueue == [] || s.bufferedAmount >= BUFFER_HIGH_WATERMARK then s
    else if good == 0 then Shifted(s).(fates := s.fates + [false])
    else Drained(Transmit(Shifted(s), s.sendQueue[0]), good - 1)
  }

  predicate DrainThrows(s: Connection, good: nat)
    decreases |s.sendQueue|
  {
    s.sendQueue != [] && s.bufferedAmount < BUFFER_HIGH_WATERMARK
    && (good == 0 || DrainThrows(Transmit(Shifted(s), s.sendQueue[0]), good - 1))
  }

  function DrainSendQueue(s: Connection, good: nat): Connection {
    if s.channel != Open then s else Drained(s, good)
  }

  predicate Sendable(s: Connection) {
    !s.isClosed && s.channel == Open
  }

  /** Nothing is in the way of the next frame. */
  predicate Direct(s: Connection) {
    s.sendQueue == [] && s.bufferedAmount < BUFFER_HIGH_WATERMARK
  }

  /** A frame at which the channel throws is queued, and reported as not sent. */
  function Send(s: Connection, frame: Bytes, throws: bool): Connection {
    if !Sendable(s) then s
    else
      var t := s.(held := s.held + [frame]);
      if !Direct(s) then t.(sendQueue := t.sendQueue + [frame], accepted := t.accepted + [frame])
      else if throws then t.(sendQueue := t.sendQueue + [frame])
      else Transmit(t.(accepted := t.accepted + [frame]), frame)
  }

  lemma NotOpenStays(s: Connection, frame: Bytes, throws: bool)
    requires s.channel != Open
    ensures Send(s, frame, throws) == s
  {
  }

  /** Several frames, one after the other; `throws(k)` tells of the frame at `k`. */
  function SendAll(s: Connection, frames: seq<Bytes>, throws: nat -> bool): Connection {
    if frames == [] then s
    else
      var n := |frames| - 1;
      Send(SendAll(s, frames[..n], throws), frames[n], throws(n))
  }

  lemma SendOne(s: Connection, frames: seq<Bytes>, frame: Bytes, throws: nat -> bool)
    ensures SendAll(s, [], throws) == s
    ensures SendAll(s, frames + [frame], throws) == Send(SendAll(s, frames, throws), frame, throws(|frames|))
  {
    assert (frames + [frame])[..|frames|] == frames;
  }

  function Close(s: Connection): Connection {
    if s.isClosed then s
    else s.(isClosed := true, sendQueue := [], channel := if s.channel == Absent then Absent else Closed)
  }

  // ---------------------------------------------------------------- the channel's side

  /** The network takes bytes; falling to the threshold from above queues an event. */
  function NetworkTakes(s: Connection, n: nat): Connection {
    if s.channel != Open || n > s.bufferedAmount then s
    else
      var left := s.bufferedAmount - n;
      s.(bufferedAmount := left,
         taken := s.taken + n,
         lowPending := s.lowPending || left <= BUFFER_LOW_THRESHOLD < s.bufferedAmount)
  }

  function LowEvent(s: Connection, good: nat): Connection {
    if s.lowPending then DrainSendQueue(s.(lowPending := false), good) else s
  }

  datatype Event =
    | ChannelMade | ChannelOpened | ChannelClosed
    | Submit(frame: Bytes, throws: bool) | Takes(n: nat) | Low(good: nat) | CloseCalled

  function Step(s: Connection, e: Event): Connection {
    match e
    case ChannelMade => if s.channel == Absent && !s.isClosed then s.(channel := Connecting) else s
    case ChannelOpened => if s.channel == Connecting then s.(channel := Open) else s
    case ChannelClosed => if s.channel == Absent then s else s.(channel := Closed)
    case Submit(frame, throws) => Send(s, frame, throws)
    case Takes(n) => NetworkTakes(s, n)
    case Low(good) => LowEvent(s, good)
    case CloseCalled => Close(s)
  }

  function Run(s: Connection, es: seq<Event>): Connection {
    if es == [] then s else Step(Run(s, es[..|es| - 1]), es[|es| - 1])
  }

  const FRESH := Connection(false, [], Absent, 0, false, [], 0, [], [], [])

  // ---------------------------------------------------------------- the two thresholds

  /** On an open connection a frame goes out at once exactly if none waits and fewer than 196608 bytes are buffered. */
  lemma SentAtOnceExactly(s: Connection, frame: Bytes, throws: bool)
    requires Sendable(s)
    ensures var t := Send(s, frame, throws);
      if s.sendQueue == [] && s.bufferedAmount < 196608 && !throws
      then t.wire == s.wire + [frame] && t.sendQueue == [] && t.bufferedAmount == s.bufferedAmount + |frame|
      else t.wire == s.wire && t.sendQueue == s.sendQueue + [frame] && t.bufferedAmount == s.bufferedAmount
  {
  }

  /** A wake-up is queued exactly when what is buffered falls to 65536 bytes or fewer from above. */
  lemma WakesExactly(s: Connection, n: nat)
    requires s.channel == Open && n <= s.bufferedAmount && !s.lowPending
    ensures NetworkTakes(s, n).lowPending <==> s.bufferedAmount - n <= 65536 && s.bufferedAmount > 65536
  {
  }

  /** The first `n` frames of the queue were sent, none with 196608 bytes or more buffered. */
  ghost predicate SendsFirst(s: Connection, t: Connection, n: nat) {
    && n <= |s.sendQueue|
    && t.wire == s.wire + s.sendQueue[..n] && t.sendQueue == s.sendQueue[n..]
    && t.bufferedAmount == s.bufferedAmount + SumLengths(s.sendQueue[..n])
    && forall k: nat :: k < n ==> s.bufferedAmount + SumLengths(s.sendQueue[..k]) < 196608
  }

  lemma NothingSummed(frames: seq<Bytes>)
    ensures SumLengths(frames[..0]) == 0
  {
  }

  lemma {:induction false} FirstFrame(frames: seq<Bytes>, k: nat)
    requires k < |frames|
    ensures SumLengths(frames[..k + 1]) == |frames[0]| + SumLengths(frames[1..][..k])
  {
    if k == 0 {
      assert frames[..1][..0] == [];
    } else {
      FirstFrame(frames, k - 1);
      assert frames[..k + 1][..k] == frames[..k] && frames[1..][..k][..k - 1] == frames[1..][..k - 1];
    }
  }

  lemma OneMoreSent(s: Connection, t: Connection, n: nat)
    requires s.sendQueue != [] && s.bufferedAmount < 196608
    requires SendsFirst(Transmit(Shifted(s), s.sendQueue[0]), t, n)
    ensures SendsFirst(s, t, n + 1)
  {
    hide SumLengths;
    var u := Transmit(Shifted(s), s.sendQueue[0]);
    forall k: nat | k <= n
      ensures SumLengths(s.sendQueue[..k + 1]) == |s.sendQueue[0]| + SumLengths(u.sendQueue[..k])
    {
      FirstFrame(s.sendQueue, k);
    }
    assert s.sendQueue[..n + 1] == [s.sendQueue[0]] + u.sendQueue[..n];
    forall k: nat | k < n + 1 ensures s.bufferedAmount + SumLengths(s.sendQueue[..k]) < 196608 {
      if k == 0 {
        NothingSummed(s.sendQueue);
      } else {
        assert SumLengths(s.sendQueue[..k - 1 + 1]) == |s.sendQueue[0]| + SumLengths(u.sendQueue[..k - 1]);
      }
    }
  }

  /**
   * A flush sends frames from the front of the queue, each with fewer than 196608 bytes buffered, until
   * none waits or that many are.
   */
  lemma {:induction false} FlushesExactly(s: Connection, good: nat)
    requires good >= |s.sendQueue|
    ensures var t := Drained(s, good);
      && (t.sendQueue == [] || t.bufferedAmount >= 196608)
      && exists n :: 0 <= n <= |s.sendQueue| && SendsFirst(s, t, n)
    decreases |s.sendQueue|
  {
    if s.sendQueue != [] && s.bufferedAmount < 196608 {
      var u := Transmit(Shifted(s), s.sendQueue[0]);
      FlushesExactly(u, good - 1);
      var t := Drained(u, good - 1);
      var n :| 0 <= n <= |u.sendQueue| && SendsFirst(u, t, n);
      OneMoreSent(s, t, n);
    } else {
      assert SendsFirst(s, s, 0) by {
        assert s.sendQueue[..0] == [] && SumLengths([]) == 0;
      }
    }
  }

  // ---------------------------------------------------------------- what every run keeps

  /** The frames that the channel took. */
  function Taken(frames: seq<Bytes>, fates: seq<bool>): seq<Bytes>
    requires |frames| == |fates|
  {
    if frames == [] then []
    else
      var n := |frames| - 1;
      Taken(frames[..n], fates[..n]) + if fates[n] then [frames[n]] else []
  }

  function Longest(frames: seq<Bytes>): nat {
    if frames == [] then 0
    else
      var rest, last := Longest(frames[..|frames| - 1]), |frames[|frames| - 1]|;
      if rest < last then last else rest
  }

  /** Frames leave in the order in which they came; after `close` what was queued is dropped. */
  ghost predicate Fifo(s: Connection) {
    && |s.fates| <= |s.held|
    && s.wire == Taken(s.held[..|s.fates|], s.fates)
    && (!s.isClosed ==> s.sendQueue == s.held[|s.fates|..])
    && (s.isClosed ==> s.sendQueue == [])
    && SumLengths(s.wire) == s.bufferedAmount + s.taken
  }

  ghost predicate Untouched(s: Connection) {
    s.channel == Absent || s.channel == Connecting ==> s.sendQueue == [] && s.bufferedAmount == 0
  }

  ghost predicate Bounded(s: Connection) {
    s.bufferedAmount < BUFFER_HIGH_WATERMARK + Longest(s.held)
  }

  ghost predicate Kept(s: Connection) {
    Fifo(s) && Untouched(s) && Bounded(s)
  }

  lemma {:induction false} NoneLonger(frames: seq<Bytes>, i: nat)
    requires i < |frames|
    ensures |frames[i]| <= Longest(frames)
  {
    if i < |frames| - 1 {
      NoneLonger(frames[..|frames| - 1], i);
    }
  }

  lemma LongestMore(frames: seq<Bytes>, frame: Bytes)
    ensures Longest(frames) <= Longest(frames + [frame]) && |frame| <= Longest(frames + [frame])
  {
    assert (frames + [frame])[..|frames|] == frames;
  }

  lemma TakenMore(frames: seq<Bytes>, fates: seq<bool>, fate: bool)
    requires |fates| < |frames|
    ensures Taken(frames[..|fates| + 1], fates + [fate]) ==
      Taken(frames[..|fates|], fates) + if fate then [frames[|fates|]] else []
  {
    assert frames[..|fates| + 1][..|fates|] == frames[..|fates|];
    assert (fates + [fate])[..|fates|] == fates;
  }

  /** The frame whose turn it is, taken or lost. */
  lemma NextKeeps(s: Connection)
    requires Fifo(s) && !s.isClosed && s.sendQueue != [] && s.bufferedAmount < BUFFER_HIGH_WATERMARK
    ensures var t := Transmit(Shifted(s), s.sendQueue[0]);
      Fifo(t) && Bounded(t) && t.wire + t.sendQueue == s.wire + s.sendQueue
    ensures Fifo(Shifted(s).(fates := s.fates + [false]))
  {
    var p, frame := |s.fates|, s.sendQueue[0];
    assert frame == s.held[p];
    NoneLonger(s.held, p);
    TakenMore(s.held, s.fates, true);
    TakenMore(s.held, s.fates, false);
    assert s.wire + [frame] + s.sendQueue[1..] == s.wire + s.sendQueue;
    ConcatAppend(s.wire, frame);
  }

  lemma SameBound(s: Connection, t: Connection)
    requires Bounded(s) && t.bufferedAmount <= s.bufferedAmount && t.held == s.held
    ensures Bounded(t)
  {
  }

  lemma {:induction false} DrainKeeps(s: Connection, good: nat)
    requires Fifo(s) && !s.isClosed && s.channel == Open && Bounded(s)
    ensures var t := Drained(s, good);
      && Fifo(t) && Bounded(t) && t.channel == Open && t.isClosed == s.isClosed
      && t.held == s.held && t.accepted == s.accepted && t.lowPending == s.lowPending
    ensures var t := Drained(s, good);
      good >= |s.sendQueue| ==>
        && t.wire + t.sendQueue == s.wire + s.sendQueue
        && (t.sendQueue == [] || t.bufferedAmount >= BUFFER_HIGH_WATERMARK)
    decreases |s.sendQueue|
  {
    hide Fifo, Bounded;
    if s.sendQueue != [] && s.bufferedAmount < BUFFER_HIGH_WATERMARK {
      NextKeeps(s);
      if good == 0 {
        SameBound(s, Shifted(s).(fates := s.fates + [false]));
      } else {
        DrainKeeps(Transmit(Shifted(s), s.sendQueue[0]), good - 1);
      }
    }
  }

  /** A frame that is held, and waits. */
  lemma QueuedKeeps(s: Connection, frame: Bytes)
    requires Kept(s) && Sendable(s)
    ensures Kept(s.(held := s.held + [frame], sendQueue := s.sendQueue + [frame]))
  {
    hide Taken, SumLengths, Longest;
    var held, p := s.held + [frame], |s.fates|;
    LongestMore(s.held, frame);
    assert held[..p] == s.held[..p] && held[p..] == s.held[p..] + [frame];
  }

  lemma KeptWithout(s: Connection, t: Connection)
    requires Kept(s) && t == s.(accepted := t.accepted)
    ensures Kept(t)
  {
  }

  /** A frame that nothing is in the way of passes through the empty queue. */
  lemma DirectKeeps(s: Connection, frame: Bytes)
    requires Kept(s) && Sendable(s) && Direct(s)
    ensures Kept(Send(s, frame, false))
  {
    hide Fifo, Bounded, Longest;
    var u := s.(held := s.held + [frame], sendQueue := s.sendQueue + [frame]);
    QueuedKeeps(s, frame);
    NextKeeps(u);
    assert u.sendQueue == [frame] && u.sendQueue[1..] == [];
    KeptWithout(Transmit(Shifted(u), frame), Send(s, frame, false));
  }

  lemma SendKeeps(s: Connection, frame: Bytes, throws: bool)
    requires Kept(s)
    ensures Kept(Send(s, frame, throws))
  {
    hide Kept;
    if Sendable(s) {
      if Direct(s) && !throws {
        DirectKeeps(s, frame);
      } else {
        QueuedKeeps(s, frame);
        KeptWithout(s.(held := s.held + [frame], sendQueue := s.sendQueue + [frame]), Send(s, frame, throws));
      }
    }
  }

  lemma LowKeeps(s: Connection, good: nat)
    requires Kept(s)
    ensures Kept(LowEvent(s, good))
  {
    hide Taken, SumLengths, Longest;
    var t := s.(lowPending := false);
    if s.isClosed {
      assert Drained(t, good) == t;
    } else if s.channel == Open {
      DrainKeeps(t, good);
    }
  }

  lemma StepKeeps(s: Connection, e: Event)
    requires Kept(s)
    ensures Kept(Step(s, e))
  {
    hide Taken, SumLengths, Longest, Send, LowEvent;
    match e
    case Submit(frame, throws) => SendKeeps(s, frame, throws);
    case Low(good) => LowKeeps(s, good);
    case _ =>
  }

  lemma NothingTaken()
    ensures Taken([], []) == [] && SumLengths([]) == 0
  {
  }

  lemma NothingYetKept(s: Connection)
    requires s.held == s.sendQueue == s.wire == [] && s.fates == [] && s.bufferedAmount == s.taken == 0
    ensures Kept(s) && NoLostWakeup(s) && Lossless(s)
  {
    hide Taken, SumLengths, Longest;
    NothingTaken();
  }

  lemma FreshKept()
    ensures Kept(FRESH) && NoLostWakeup(FRESH) && Lossless(FRESH)
  {
    hide Kept, NoLostWakeup, Lossless;
    NothingYetKept(FRESH);
  }

  /**
   * Over any run of sends, network activity and closing, and wherever the channel throws: the
   * frames on the wire are those that the channel took of the ones held, in order, the queue is
   * the rest, and the buffer stays below the high watermark plus the longest frame.
   */
  lemma {:induction false} RunKeeps(es: seq<Event>)
    ensures Kept(Run(FRESH, es))
  {
    hide Step, Kept;
    if es == [] {
      FreshKept();
    } else {
      RunKeeps(es[..|es| - 1]);
      StepKeeps(Run(FRESH, es[..|es| - 1]), es[|es| - 1]);
    }
  }

  // ---------------------------------------------------------------- lost frames

  /** Every frame that left the queue was taken. */
  ghost predicate Lossless(s: Connection) {
    false !in s.fates
  }

  lemma {:induction false} AllTaken(frames: seq<Bytes>, fates: seq<bool>)
    requires |frames| == |fates|
    ensures |Taken(frames, fates)| <= |frames|
    ensures false !in fates ==> Taken(frames, fates) == frames
    ensures false in fates ==> |Taken(frames, fates)| < |frames|
  {
    if frames == [] {
    } else {
      var n := |frames| - 1;
      AllTaken(frames[..n], fates[..n]);
      assert frames == frames[..n] + [frames[n]] && fates == fates[..n] + [fates[n]];
    }
  }

  /** While open, wire and queue make up all that was held if and only if no frame was lost. */
  lemma LosslessMeans(s: Connection)
    requires Fifo(s) && !s.isClosed
    ensures Lossless(s) <==> s.wire + s.sendQueue == s.held
  {
    var p := |s.fates|;
    AllTaken(s.held[..p], s.fates);
    assert s.held[..p] + s.held[p..] == s.held;
  }

  /** The drain reaches a frame at which the channel throws. */
  predicate Loses(s: Connection, e: Event) {
    e.Low? && s.lowPending && s.channel == Open && e.good < |s.sendQueue|
    && s.bufferedAmount + SumLengths(s.sendQueue[..e.good]) < BUFFER_HIGH_WATERMARK
  }

  lemma {:induction false} SumFromFront(parts: seq<Bytes>)
    requires parts != []
    ensures SumLengths(parts) == |parts[0]| + SumLengths(parts[1..])
  {
    var n := |parts| - 1;
    if n == 0 {
    } else {
      SumFromFront(parts[..n]);
      assert parts[..n][1..] == parts[1..][..n - 1];
    }
  }

  lemma FrontFrames(parts: seq<Bytes>, n: nat)
    requires 0 < n
    ensures n <= |parts| ==> SumLengths(parts[..n]) == |parts[0]| + SumLengths(parts[1..][..n - 1])
  {
    if n <= |parts| {
      SumFromFront(parts[..n]);
      assert parts[..n][1..] == parts[1..][..n - 1];
    }
  }

  /** The drain throws if and only if the frames before the bad one leave the buffer below the watermark. */
  lemma {:induction false} ThrowsExactly(s: Connection, good: nat)
    ensures DrainThrows(s, good) <==>
      good < |s.sendQueue| && s.bufferedAmount + SumLengths(s.sendQueue[..good]) < BUFFER_HIGH_WATERMARK
    ensures Lossless(Drained(s, good)) <==> Lossless(s) && !DrainThrows(s, good)
    decreases |s.sendQueue|
  {
    if s.sendQueue != [] && s.bufferedAmount < BUFFER_HIGH_WATERMARK && good > 0 {
      ThrowsExactly(Transmit(Shifted(s), s.sendQueue[0]), good - 1);
      FrontFrames(s.sendQueue, good);
    }
  }

  lemma LosesExactly(s: Connection, e: Event)
    ensures Lossless(Step(s, e)) <==> Lossless(s) && !Loses(s, e)
  {
    hide SumLengths, DrainThrows;
    if e.Low? {
      ThrowsExactly(s.(lowPending := false), e.good);
    }
  }

  // ---------------------------------------------------------------- stranded frames

  /** A waiting frame is woken up: the buffer is above the threshold, or the event is queued. */
  ghost predicate NoLostWakeup(s: Connection) {
    s.channel == Open && s.sendQueue != [] ==> s.bufferedAmount > BUFFER_LOW_THRESHOLD || s.lowPending
  }

  /**
   * The channel throws with the buffer at or below the threshold, so that no event will come: at
   * a frame sent directly, or at a queued one that has others behind it.
   */
  predicate Strands(s: Connection, e: Event) {
    match e
    case Submit(_, throws) =>
      throws && Sendable(s) && s.sendQueue == [] && s.bufferedAmount <= BUFFER_LOW_THRESHOLD && !s.lowPending
    case Low(good) =>
      s.lowPending && s.channel == Open && good + 1 < |s.sendQueue|
      && s.bufferedAmount + SumLengths(s.sendQueue[..good]) <= BUFFER_LOW_THRESHOLD
    case _ => false
  }

  lemma {:induction false} LeftExactly(s: Connection, good: nat)
    ensures var t := Drained(s, good);
      t.sendQueue != [] && t.bufferedAmount <= BUFFER_LOW_THRESHOLD <==>
        good + 1 < |s.sendQueue| && s.bufferedAmount + SumLengths(s.sendQueue[..good]) <= BUFFER_LOW_THRESHOLD
    ensures Drained(s, good).channel == s.channel && Drained(s, good).lowPending == s.lowPending
    decreases |s.sendQueue|
  {
    if s.sendQueue != [] && s.bufferedAmount < BUFFER_HIGH_WATERMARK && good > 0 {
      LeftExactly(Transmit(Shifted(s), s.sendQueue[0]), good - 1);
      FrontFrames(s.sendQueue, good);
    }
  }

  /** No waiting frame misses its wake-up, if and only if the channel does not throw so. */
  lemma StrandsExactly(s: Connection, e: Event)
    requires Untouched(s) && NoLostWakeup(s)
    ensures NoLostWakeup(Step(s, e)) <==> !Strands(s, e)
  {
    hide SumLengths, Drained;
    if e.Low? {
      LeftExactly(s.(lowPending := false), e.good);
    }
  }

  /** Frames that wait for an event that will not come, or on a closed channel. */
  ghost predicate Dead(s: Connection) {
    s.channel == Closed || (s.channel == Open && !NoLostWakeup(s))
  }

  /** Then nothing is ever sent again, though `send` goes on to report success while the channel is open. */
  lemma {:induction false} DeadForever(s: Connection, es: seq<Event>)
    requires Dead(s)
    ensures Dead(Run(s, es)) && Run(s, es).wire == s.wire
  {
    if es == [] {
    } else {
      hide Drained;
      DeadForever(s, es[..|es| - 1]);
    }
  }

  lemma RunOne(es: seq<Event>, e: Event)
    ensures Run(FRESH, es + [e]) == Step(Run(FRESH, es), e) && Run(FRESH, []) == FRESH
  {
    assert (es + [e])[..|es|] == es;
  }

  /** A single frame refused on an idle channel stops it for good; the next one is reported as sent. */
  lemma StrandedExample(refused: Bytes, next: Bytes, es: seq<Event>)
    ensures var s := Run(FRESH, [ChannelMade, ChannelOpened, Submit(refused, true), Submit(next, false)]);
      && s.accepted == [next] && s.sendQueue == [refused, next]
      && Run(s, es).wire == []
  {
    var ready := [ChannelMade, ChannelOpened];
    var first := ready + [Submit(refused, true)];
    var all := first + [Submit(next, false)];
    assert all == [ChannelMade, ChannelOpened, Submit(refused, true), Submit(next, false)];
    assert [] + [ChannelMade] == [ChannelMade] && [ChannelMade] + [ChannelOpened] == ready;
    RunOne([], ChannelMade);
    RunOne([ChannelMade], ChannelOpened);
    RunOne(ready, Submit(refused, true));
    RunOne(first, Submit(next, false));
    assert Run(FRESH, ready) == FRESH.(channel := Open);
    assert [] + [refused] == [refused] && [refused] + [next] == [refused, next] && [] + [next] == [next];
    DeadForever(Run(FRESH, all), es);
  }

  // ---------------------------------------------------------------- runs

  /** The channel throws at a frame that nothing was in the way of. */
  predicate Refuses(s: Connection, e: Event) {
    e.Submit? && e.throws && Sendable(s) && Direct(s)
  }

  ghost predicate Never(es: seq<Event>, fault: (Connection, Event) -> bool) {
    forall k :: 0 <= k < |es| ==> !fault(Run(FRESH, es[..k]), es[k])
  }

  lemma NeverMore(es: seq<Event>, fault: (Connection, Event) -> bool)
    requires es != []
    ensures var n := |es| - 1;
      Never(es, fault) <==> Never(es[..n], fault) && !fault(Run(FRESH, es[..n]), es[n])
  {
    hide Run;
    var n := |es| - 1;
    assert forall k :: 0 <= k < n ==> es[..n][..k] == es[..k] && es[..n][k] == es[k];
  }

  lemma NothingFaulty(fault: (Connection, Event) -> bool)
    ensures Never([], fault)
  {
  }

  /** Over any run no frame is lost if and only if no drain reaches one at which the channel throws. */
  lemma {:induction false} LostExactly(es: seq<Event>)
    ensures Lossless(Run(FRESH, es)) <==> Never(es, (s, e) => Loses(s, e))
  {
    hide Step, Lossless, Loses, Never;
    if es == [] {
      FreshKept();
      NothingFaulty((s, e) => Loses(s, e));
    } else {
      var n := |es| - 1;
      LostExactly(es[..n]);
      LosesExactly(Run(FRESH, es[..n]), es[n]);
      NeverMore(es, (s, e) => Loses(s, e));
    }
  }

  ghost predicate AlwaysWoken(es: seq<Event>) {
    forall k :: 0 <= k <= |es| ==> NoLostWakeup(Run(FRESH, es[..k]))
  }

  lemma WokenFirst()
    ensures AlwaysWoken([])
  {
  }

  lemma KeptUntouched(s: Connection)
    requires Kept(s)
    ensures Untouched(s)
  {
  }

  lemma WokenMore(es: seq<Event>)
    requires es != []
    ensures AlwaysWoken(es) <==> AlwaysWoken(es[..|es| - 1]) && NoLostWakeup(Run(FRESH, es))
    ensures AlwaysWoken(es[..|es| - 1]) ==> NoLostWakeup(Run(FRESH, es[..|es| - 1]))
  {
    hide Run, NoLostWakeup;
    var n := |es| - 1;
    assert forall k :: 0 <= k <= n ==> es[..n][..k] == es[..k];
    assert es[..n + 1] == es && es[..n][..n] == es[..n];
  }

  /** Every waiting frame is woken up throughout a run if and only if the channel never strands one. */
  lemma {:induction false} WokenExactly(es: seq<Event>)
    ensures AlwaysWoken(es) <==> Never(es, (s, e) => Strands(s, e))
  {
    hide Step, NoLostWakeup, Strands, Never, Kept, Untouched, AlwaysWoken;
    if es == [] {
      FreshKept();
      NothingFaulty((s, e) => Strands(s, e));
      WokenFirst();
    } else {
      var n := |es| - 1;
      WokenExactly(es[..n]);
      WokenMore(es);
      NeverMore(es, (s, e) => Strands(s, e));
      RunKeeps(es[..n]);
      KeptUntouched(Run(FRESH, es[..n]));
      if AlwaysWoken(es[..n]) {
        StrandsExactly(Run(FRESH, es[..n]), es[n]);
      }
    }
  }

  lemma AppendBoth(a: seq<Bytes>, b: seq<Bytes>, frame: Bytes)
    ensures a + [frame] == b + [frame] <==> a == b
  {
    if a + [frame] == b + [frame] {
      assert a == (a + [frame])[..|a|] == (b + [frame])[..|b|] == b;
    }
  }

  lemma {:induction false} DrainReports(s: Connection, good: nat)
    ensures Drained(s, good).accepted == s.accepted && Drained(s, good).held == s.held
    decreases |s.sendQueue|
  {
    if s.sendQueue != [] && s.bufferedAmount < BUFFER_HIGH_WATERMARK && good > 0 {
      DrainReports(Transmit(Shifted(s), s.sendQueue[0]), good - 1);
    }
  }

  lemma RefusesExactly(s: Connection, e: Event)
    requires |s.accepted| <= |s.held|
    ensures var t := Step(s, e);
      && |t.accepted| <= |t.held|
      && (t.accepted == t.held <==> s.accepted == s.held && !Refuses(s, e))
  {
    hide Drained;
    if e.Submit? && Sendable(s) {
      AppendBoth(s.accepted, s.held, e.frame);
    } else if e.Low? {
      DrainReports(s.(lowPending := false), e.good);
    }
  }

  /** `send` reports all that it holds if and only if the channel never throws at a frame sent directly. */
  lemma {:induction false} ReportedExactly(es: seq<Event>)
    ensures |Run(FRESH, es).accepted| <= |Run(FRESH, es).held|
    ensures Run(FRESH, es).accepted == Run(FRESH, es).held <==> Never(es, (s, e) => Refuses(s, e))
  {
    hide Step, Refuses, Never;
    if es == [] {
      NothingFaulty((s, e) => Refuses(s, e));
    } else {
      var n := |es| - 1;
      ReportedExactly(es[..n]);
      RefusesExactly(Run(FRESH, es[..n]), es[n]);
      NeverMore(es, (s, e) => Refuses(s, e));
    }
  }

  // ---------------------------------------------------------------- what waits is sent

  /** The network empties the buffer, and the event that is queued by then is handled without a throw. */
  function Flush(s: Connection): Connection {
    LowEvent(NetworkTakes(s, s.bufferedAmount), |s.sendQueue|)
  }

  function FlushTimes(s: Connection, n: nat): Connection {
    if n == 0 then s else Flush(FlushTimes(s, n - 1))
  }

  lemma SameQueue(s: Connection, t: Connection)
    requires Kept(s) && t == s.(lowPending := false)
    ensures Fifo(t) && Bounded(t)
  {
  }

  lemma FlushSends(s: Connection)
    requires Kept(s) && NoLostWakeup(s) && Sendable(s)
    ensures var t := Flush(s);
      && Kept(t) && NoLostWakeup(t) && Sendable(t) && t.accepted == s.accepted
      && t.wire + t.sendQueue == s.wire + s.sendQueue
      && (s.sendQueue != [] ==> |t.sendQueue| < |s.sendQueue|)
      && (s.sendQueue == [] ==> t.sendQueue == [])
  {
    hide Fifo, Bounded, SumLengths;
    var n := |s.sendQueue|;
    var u := NetworkTakes(s, s.bufferedAmount);
    StepKeeps(s, Takes(s.bufferedAmount));
    StrandsExactly(s, Takes(s.bufferedAmount));
    LowKeeps(u, n);
    StrandsExactly(u, Low(n));
    if u.lowPending {
      var v := u.(lowPending := false);
      assert Fifo(v) && Bounded(v) by {
        SameQueue(u, v);
      }
      DrainKeeps(v, n);
      if s.sendQueue != [] {
        DrainShortens(Transmit(Shifted(v), v.sendQueue[0]), n - 1);
      }
    }
  }

  /** While the channel stays open, all that waits is sent in order, after at most one flush per waiting frame. */
  lemma {:induction false} AllSent(s: Connection, n: nat)
    requires Kept(s) && NoLostWakeup(s) && Sendable(s)
    ensures var t := FlushTimes(s, n);
      && Kept(t) && NoLostWakeup(t) && Sendable(t) && t.accepted == s.accepted
      && t.wire + t.sendQueue == s.wire + s.sendQueue
      && |t.sendQueue| <= if n <= |s.sendQueue| then |s.sendQueue| - n else 0
    ensures n >= |s.sendQueue| ==> FlushTimes(s, n).wire == s.wire + s.sendQueue
  {
    hide Flush, Kept, NoLostWakeup;
    if n == 0 {
    } else {
      AllSent(s, n - 1);
      FlushSends(FlushTimes(s, n - 1));
    }
  }

  // ---------------------------------------------------------------- several frames

  /** Whatever the channel does, an open connection holds all frames of a burst, in order; another one none. */
  lemma {:induction false} SendAllHolds(s: Connection, frames: seq<Bytes>, throws: nat -> bool)
    ensures var t := SendAll(s, frames, throws);
      if Sendable(s) then Sendable(t) && t.held == s.held + frames else t == s
  {
    if frames == [] {
    } else {
      var n := |frames| - 1;
      SendAllHolds(s, frames[..n], throws);
      assert s.held + frames[..n] + [frames[n]] == s.held + frames;
    }
  }

  lemma {:induction false} BurstHeld(s: Connection, frames: seq<Bytes>, throws: nat -> bool)
    requires Kept(s) && Sendable(s)
    ensures var t := SendAll(s, frames, throws);
      && Kept(t) && Sendable(t) && t.held == s.held + frames
      && (Lossless(s) ==> Lossless(t))
  {
    hide Kept;
    SendAllHolds(s, frames, throws);
    if frames != [] {
      var n := |frames| - 1;
      BurstHeld(s, frames[..n], throws);
      SendKeeps(SendAll(s, frames[..n], throws), frames[n], throws(n));
    }
  }

  lemma StepHolds(s: Connection, e: Event)
    ensures s.held <= Step(s, e).held
  {
    hide Drained;
    if e.Low? {
      DrainReports(s.(lowPending := false), e.good);
    }
  }

  lemma {:induction false} RunHolds(s: Connection, es: seq<Event>)
    requires Kept(s)
    ensures Kept(Run(s, es)) && s.held <= Run(s, es).held
  {
    hide Step, Kept;
    if es == [] {
    } else {
      var n := |es| - 1;
      RunHolds(s, es[..n]);
      StepKeeps(Run(s, es[..n]), es[n]);
      StepHolds(Run(s, es[..n]), es[n]);
    }
  }

  lemma KeptFifo(s: Connection)
    requires Kept(s)
    ensures Fifo(s)
  {
  }

  /** Once nothing waits, and if nothing was lost, a burst is on the wire, behind all that was held before. */
  lemma BurstSent(s: Connection, frames: seq<Bytes>, throws: nat -> bool, es: seq<Event>)
    requires Kept(s) && Sendable(s)
    ensures var t := Run(SendAll(s, frames, throws), es);
      !t.isClosed && t.sendQueue == [] && Lossless(t) ==> s.held + frames <= t.wire
  {
    hide Kept, Lossless;
    var u := SendAll(s, frames, throws);
    var t := Run(u, es);
    BurstHeld(s, frames, throws);
    RunHolds(u, es);
    if !t.isClosed && t.sendQueue == [] && Lossless(t) {
      KeptFifo(t);
      LosslessMeans(t);
      assert t.wire + [] == t.wire;
    }
  }

  /** That comes about by flushing: unless it strands a frame, a burst is sent after as many flushes as frames wait. */
  lemma BurstFlushed(s: Connection, frames: seq<Bytes>, throws: nat -> bool, n: nat)
    requires Kept(s) && Sendable(s) && Lossless(s)
    requires var u := SendAll(s, frames, throws); NoLostWakeup(u) && n >= |u.sendQueue|
    ensures FlushTimes(SendAll(s, frames, throws), n).wire == s.held + frames
  {
    hide Kept, Lossless, NoLostWakeup;
    var u := SendAll(s, frames, throws);
    BurstHeld(s, frames, throws);
    KeptFifo(u);
    LosslessMeans(u);
    AllSent(u, n);
  }

  lemma {:induction false} DrainShortens(s: Connection, good: nat)
    ensures |Drained(s, good).sendQueue| <= |s.sendQueue|
    decreases |s.sendQueue|
  {
    if s.sendQueue != [] && s.bufferedAmount < BUFFER_HIGH_WATERMARK && good > 0 {
      DrainShortens(Transmit(Shifted(s), s.sendQueue[0]), good - 1);
    }
  }

  /** A frame that `send` reports as not sent is sent all the same, once the buffer was above the threshold. */
  lemma RefusedIsSent(s: Connection, frame: Bytes)
    requires Kept(s) && Sendable(s) && Direct(s) && s.bufferedAmount > BUFFER_LOW_THRESHOLD
    ensures var t := Send(s, frame, true);
      t.accepted == s.accepted && Flush(t).wire == s.wire + [frame]
  {
    hide Kept;
    var t := Send(s, frame, true);
    SendKeeps(s, frame, true);
    FlushSends(t);
    assert t.sendQueue == [frame] && Flush(t).sendQueue == [];
    assert Flush(t).wire + [] == Flush(t).wire;
  }
}
