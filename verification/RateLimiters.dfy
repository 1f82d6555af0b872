/** The sliding-window rate limiter, against the full history of its calls, for any clock. */
module RateLimiters {

  /** A call of `checkLimit` and its answer. */
  datatype Call = Call(key: string, time: int, allowed: bool)

  /** The timestamps still inside the window, in order. */
  function Prune(ts: seq<int>, now: int, windowMs: int): seq<int> {
    if ts == [] then []
    else
      var last := ts[|ts| - 1];
      Prune(ts[..|ts| - 1], now, windowMs) + if now - last < windowMs then [last] else []
  }

  /** The record of `key`: each of its calls prunes it, and an allowed one adds its time. */
  function Record(calls: seq<Call>, key: string, windowMs: int): seq<int> {
    if calls == [] then []
    else
      var front, last := calls[..|calls| - 1], calls[|calls| - 1];
      if last.key != key then Record(front, key, windowMs)
      else Prune(Record(front, key, windowMs), last.time, windowMs) + if last.allowed then [last.time] else []
  }

  /** What the limiter answers. */
  predicate Allows(calls: seq<Call>, key: string, now: int, maxRequests: nat, windowMs: int) {
    |Prune(Record(calls, key, windowMs), now, windowMs)| < maxRequests
  }

  /** When `key` was allowed, by the whole history. */
  function AllowedTimes(calls: seq<Call>, key: string): seq<int> {
    if calls == [] then []
    else
      var front, last := calls[..|calls| - 1], calls[|calls| - 1];
      if last.allowed && last.key == key then AllowedTimes(front, key) + [last.time] else AllowedTimes(front, key)
  }

  /** What it would answer if it never forgot a timestamp. */
  predicate HistoryAllows(calls: seq<Call>, key: string, now: int, maxRequests: nat, windowMs: int) {
    |Prune(AllowedTimes(calls, key), now, windowMs)| < maxRequests
  }

  /** The allowed calls of `key` with a time in `[from, to)`. */
  function AllowedWithin(calls: seq<Call>, key: string, from: int, to: int): nat {
    if calls == [] then 0
    else
      var last := calls[|calls| - 1];
      AllowedWithin(calls[..|calls| - 1], key, from, to)
      + if last.allowed && last.key == key && from <= last.time < to then 1 else 0
  }

  /** The clock has not passed `now`. */
  ghost predicate NotAfter(calls: seq<Call>, now: int) {
    forall i :: 0 <= i < |calls| ==> calls[i].time <= now
  }

  /** The limiter gave these answers. */
  ghost predicate Answered(calls: seq<Call>, maxRequests: nat, windowMs: int) {
    forall i :: 0 <= i < |calls| ==>
      (calls[i].allowed <==> Allows(calls[..i], calls[i].key, calls[i].time, maxRequests, windowMs))
  }

  /** The calls and answers when `checkLimit` is called for these keys at these times. */
  function Serve(requests: seq<(string, int)>, maxRequests: nat, windowMs: int): (calls: seq<Call>)
    ensures |calls| == |requests|
  {
    if requests == [] then []
    else
      var calls := Serve(requests[..|requests| - 1], maxRequests, windowMs);
      var (key, now) := requests[|requests| - 1];
      calls + [Call(key, now, Allows(calls, key, now, maxRequests, windowMs))]
  }

  /** The run gives exactly the limiter's answers. */
  lemma {:induction false} ServeAnswers(requests: seq<(string, int)>, maxRequests: nat, windowMs: int)
    ensures Answered(Serve(requests, maxRequests, windowMs), maxRequests, windowMs)
  {
    if requests == [] {
    } else {
      hide Allows;
      var calls := Serve(requests, maxRequests, windowMs);
      var n := |requests| - 1;
      ServeAnswers(requests[..n], maxRequests, windowMs);
      assert calls[..n] == Serve(requests[..n], maxRequests, windowMs);
      forall i | 0 <= i < n
        ensures calls[i].allowed <==> Allows(calls[..i], calls[i].key, calls[i].time, maxRequests, windowMs)
      {
        assert calls[..n][..i] == calls[..i];
      }
    }
  }

  // ---------------------------------------------------------------- pruning

  function Later(a: int, b: int): int {
    if a < b then b else a
  }

  lemma PruneAppend(ts: seq<int>, t: int, now: int, windowMs: int)
    ensures Prune(ts + [t], now, windowMs) ==
      if now - t < windowMs then Prune(ts, now, windowMs) + [t] else Prune(ts, now, windowMs)
  {
    assert (ts + [t])[..|ts|] == ts;
  }

  /** Pruning at two times, in either order, is pruning at the later one. */
  lemma {:induction false} PruneTwice(ts: seq<int>, a: int, b: int, windowMs: int)
    ensures Prune(Prune(ts, a, windowMs), b, windowMs) == Prune(ts, Later(a, b), windowMs)
  {
    if ts == [] {
    } else {
      var front, last := ts[..|ts| - 1], ts[|ts| - 1];
      assert ts == front + [last];
      PruneTwice(front, a, b, windowMs);
      PruneAppend(front, last, a, windowMs);
      PruneAppend(Prune(front, a, windowMs), last, b, windowMs);
      PruneAppend(front, last, Later(a, b), windowMs);
    }
  }

  lemma {:induction false} PruneSame(ts: seq<int>, a: int, b: int, windowMs: int)
    requires forall t :: t in ts ==> (a - t < windowMs <==> b - t < windowMs)
    ensures Prune(ts, a, windowMs) == Prune(ts, b, windowMs)
  {
    if ts == [] {
    } else {
      var front, last := ts[..|ts| - 1], ts[|ts| - 1];
      assert ts == front + [last];
      assert last in ts && forall t :: t in front ==> t in ts;
      PruneSame(front, a, b, windowMs);
      PruneAppend(front, last, a, windowMs);
      PruneAppend(front, last, b, windowMs);
    }
  }

  lemma RecordMore(calls: seq<Call>, call: Call, key: string, now: int, windowMs: int)
    ensures call.key != key ==> Record(calls + [call], key, windowMs) == Record(calls, key, windowMs)
    ensures call.key == key ==>
      Prune(Record(calls + [call], key, windowMs), now, windowMs) ==
      Prune(Record(calls, key, windowMs), Later(call.time, now), windowMs)
      + if call.allowed && now - call.time < windowMs then [call.time] else []
  {
    assert (calls + [call])[..|calls|] == calls;
    var pruned := Prune(Record(calls, key, windowMs), call.time, windowMs);
    PruneTwice(Record(calls, key, windowMs), call.time, now, windowMs);
    PruneAppend(pruned, call.time, now, windowMs);
    assert pruned + [] == pruned;
  }

  lemma TimesMore(calls: seq<Call>, call: Call, key: string, now: int, windowMs: int)
    ensures AllowedTimes(calls + [call], key) ==
      if call.allowed && call.key == key then AllowedTimes(calls, key) + [call.time] else AllowedTimes(calls, key)
    ensures Prune(AllowedTimes(calls + [call], key), now, windowMs) ==
      Prune(AllowedTimes(calls, key), now, windowMs)
      + if call.allowed && call.key == key && now - call.time < windowMs then [call.time] else []
  {
    assert (calls + [call])[..|calls|] == calls;
    PruneAppend(AllowedTimes(calls, key), call.time, now, windowMs);
  }

  // ---------------------------------------------------------------- what is forgotten

  /** An allowed call of `key` that is inside the window that reaches back from `now`. */
  predicate Counts(calls: seq<Call>, i: nat, key: string, now: int, windowMs: int)
    requires i < |calls|
  {
    calls[i].allowed && calls[i].key == key && now - calls[i].time < windowMs
  }

  /** A later call of the key found it outside the window. */
  ghost predicate Dropped(calls: seq<Call>, i: nat, key: string, windowMs: int)
    requires i < |calls|
  {
    exists j :: i < j < |calls| && calls[j].key == key && calls[j].time - calls[i].time >= windowMs
  }

  ghost predicate Forgotten(calls: seq<Call>, i: nat, key: string, now: int, windowMs: int)
    requires i < |calls|
  {
    Counts(calls, i, key, now, windowMs) && Dropped(calls, i, key, windowMs)
  }

  ghost predicate Forgets(calls: seq<Call>, key: string, now: int, windowMs: int) {
    exists i :: 0 <= i < |calls| && Forgotten(calls, i, key, now, windowMs)
  }

  ghost function Remembered(calls: seq<Call>, key: string, now: int, windowMs: int): set<nat> {
    set i | 0 <= i < |calls| && Counts(calls, i, key, now, windowMs) && !Dropped(calls, i, key, windowMs)
  }

  ghost function Counted(calls: seq<Call>, key: string, now: int, windowMs: int): set<nat> {
    set i | 0 <= i < |calls| && Counts(calls, i, key, now, windowMs)
  }

  lemma DroppedMore(calls: seq<Call>, call: Call, i: nat, key: string, windowMs: int)
    requires i < |calls|
    ensures Dropped(calls + [call], i, key, windowMs) <==>
      Dropped(calls, i, key, windowMs) || (call.key == key && call.time - calls[i].time >= windowMs)
  {
    var after := calls + [call];
    assert after[|calls|] == call && after[i] == calls[i];
    if j :| i < j < |calls| && calls[j].key == key && calls[j].time - calls[i].time >= windowMs {
      assert after[j] == calls[j];
    }
  }

  lemma RememberedMore(calls: seq<Call>, call: Call, key: string, now: int, windowMs: int)
    ensures Remembered(calls + [call], key, now, windowMs) ==
      Remembered(calls, key, if call.key == key then Later(call.time, now) else now, windowMs)
      + if Counts(calls + [call], |calls|, key, now, windowMs) then {|calls|} else {}
  {
    var after := calls + [call];
    forall i | 0 <= i < |calls|
      ensures Dropped(after, i, key, windowMs) <==>
        Dropped(calls, i, key, windowMs) || (call.key == key && call.time - calls[i].time >= windowMs)
      ensures after[i] == calls[i]
    {
      DroppedMore(calls, call, i, key, windowMs);
    }
    assert !Dropped(after, |calls|, key, windowMs);
  }

  lemma CountedMore(calls: seq<Call>, call: Call, key: string, now: int, windowMs: int)
    ensures Counted(calls + [call], key, now, windowMs) ==
      Counted(calls, key, now, windowMs) + if Counts(calls + [call], |calls|, key, now, windowMs) then {|calls|} else {}
  {
    var after := calls + [call];
    assert forall i :: 0 <= i < |calls| ==> after[i] == calls[i];
  }

  /** The record counts exactly the calls that are remembered. */
  lemma {:induction false} RecordExactly(calls: seq<Call>, key: string, now: int, windowMs: int)
    ensures |Prune(Record(calls, key, windowMs), now, windowMs)| == |Remembered(calls, key, now, windowMs)|
  {
    if calls == [] {
    } else {
      hide Record, Prune;
      var n := |calls| - 1;
      var front, last := calls[..n], calls[n];
      assert calls == front + [last];
      RecordExactly(front, key, if last.key == key then Later(last.time, now) else now, windowMs);
      RecordMore(front, last, key, now, windowMs);
      RememberedMore(front, last, key, now, windowMs);
    }
  }

  lemma {:induction false} HistoryExactly(calls: seq<Call>, key: string, now: int, windowMs: int)
    ensures |Prune(AllowedTimes(calls, key), now, windowMs)| == |Counted(calls, key, now, windowMs)|
  {
    if calls == [] {
    } else {
      hide AllowedTimes, Prune;
      var n := |calls| - 1;
      var front, last := calls[..n], calls[n];
      assert calls == front + [last];
      HistoryExactly(front, key, now, windowMs);
      TimesMore(front, last, key, now, windowMs);
      CountedMore(front, last, key, now, windowMs);
    }
  }

  lemma TimeOfCall(calls: seq<Call>, key: string, t: int) returns (i: nat)
    requires t in AllowedTimes(calls, key)
    ensures i < |calls| && calls[i].allowed && calls[i].key == key && calls[i].time == t
  {
    var n := |calls| - 1;
    if t in AllowedTimes(calls[..n], key) {
      i := TimeOfCall(calls[..n], key, t);
    } else {
      i := n;
    }
  }

  lemma StillNothingForgotten(calls: seq<Call>, call: Call, key: string, now: int, windowMs: int)
    requires !Forgets(calls + [call], key, now, windowMs)
    ensures var at := if call.key == key then Later(call.time, now) else now;
      && !Forgets(calls, key, at, windowMs)
      && forall t :: t in AllowedTimes(calls, key) ==> (at - t < windowMs <==> now - t < windowMs)
  {
    hide AllowedTimes;
    var after := calls + [call];
    var at := if call.key == key then Later(call.time, now) else now;
    forall i | 0 <= i < |calls| && Counts(calls, i, key, now, windowMs)
      ensures !Dropped(calls, i, key, windowMs) && (call.key == key ==> call.time - calls[i].time < windowMs)
    {
      assert after[i] == calls[i];
      DroppedMore(calls, call, i, key, windowMs);
      assert !Forgotten(after, i, key, now, windowMs);
    }
    forall t | t in AllowedTimes(calls, key) ensures at - t < windowMs <==> now - t < windowMs {
      var i := TimeOfCall(calls, key, t);
      assert now - t < windowMs ==> Counts(calls, i, key, now, windowMs);
    }
  }

  lemma {:induction false} NothingForgotten(calls: seq<Call>, key: string, now: int, windowMs: int)
    requires !Forgets(calls, key, now, windowMs)
    ensures Prune(Record(calls, key, windowMs), now, windowMs) == Prune(AllowedTimes(calls, key), now, windowMs)
  {
    if calls == [] {
    } else {
      hide Record, AllowedTimes, Prune;
      var n := |calls| - 1;
      var front, last := calls[..n], calls[n];
      var at := if last.key == key then Later(last.time, now) else now;
      assert calls == front + [last];
      StillNothingForgotten(front, last, key, now, windowMs);
      NothingForgotten(front, key, at, windowMs);
      PruneSame(AllowedTimes(front, key), at, now, windowMs);
      RecordMore(front, last, key, now, windowMs);
      TimesMore(front, last, key, now, windowMs);
      assert Prune(AllowedTimes(front, key), now, windowMs) + [] == Prune(AllowedTimes(front, key), now, windowMs);
    }
  }

  /**
   * For any clock, the record falls short of the history if and only if an allowed call that
   * counts again was found outside the window by a later call; otherwise they agree.
   */
  lemma ForgetsExactly(calls: seq<Call>, key: string, now: int, windowMs: int)
    ensures var kept := Prune(Record(calls, key, windowMs), now, windowMs);
      var all := Prune(AllowedTimes(calls, key), now, windowMs);
      && |kept| <= |all|
      && (|kept| < |all| <==> Forgets(calls, key, now, windowMs))
      && (kept == all <==> !Forgets(calls, key, now, windowMs))
  {
    hide Record, AllowedTimes, Prune, Counts, Dropped;
    RecordExactly(calls, key, now, windowMs);
    HistoryExactly(calls, key, now, windowMs);
    var remembered, counted := Remembered(calls, key, now, windowMs), Counted(calls, key, now, windowMs);
    assert |counted| == |remembered| + |counted - remembered| by {
      assert counted == remembered + (counted - remembered);
    }
    if Forgets(calls, key, now, windowMs) {
      var i :| 0 <= i < |calls| && Forgotten(calls, i, key, now, windowMs);
      assert i in counted - remembered;
    } else {
      NothingForgotten(calls, key, now, windowMs);
    }
  }

  /**
   * For any clock, an answer differs from the one that the full history gives if and only if
   * fewer calls than the limit are remembered while at least as many count.
   */
  lemma DiffersExactly(calls: seq<Call>, key: string, now: int, maxRequests: nat, windowMs: int)
    ensures Allows(calls, key, now, maxRequests, windowMs) <==> |Remembered(calls, key, now, windowMs)| < maxRequests
    ensures Allows(calls, key, now, maxRequests, windowMs) != HistoryAllows(calls, key, now, maxRequests, windowMs) <==>
      |Remembered(calls, key, now, windowMs)| < maxRequests <= |Counted(calls, key, now, windowMs)|
    ensures HistoryAllows(calls, key, now, maxRequests, windowMs) ==> Allows(calls, key, now, maxRequests, windowMs)
    ensures !Forgets(calls, key, now, windowMs) ==>
      (Allows(calls, key, now, maxRequests, windowMs) <==> HistoryAllows(calls, key, now, maxRequests, windowMs))
  {
    hide Record, AllowedTimes, Prune, Remembered, Counted;
    RecordExactly(calls, key, now, windowMs);
    HistoryExactly(calls, key, now, windowMs);
    ForgetsExactly(calls, key, now, windowMs);
  }

  // ---------------------------------------------------------------- every window

  /** Whatever lies in a window around `now` counts at `now`. */
  lemma {:induction false} WindowCounts(calls: seq<Call>, key: string, from: int, now: int, windowMs: int)
    requires from <= now < from + windowMs
    ensures AllowedWithin(calls, key, from, from + windowMs) <= |Prune(AllowedTimes(calls, key), now, windowMs)|
  {
    if calls == [] {
    } else {
      hide AllowedTimes, Prune;
      var n := |calls| - 1;
      var front, last := calls[..n], calls[n];
      assert calls == front + [last];
      WindowCounts(front, key, from, now, windowMs);
      TimesMore(front, last, key, now, windowMs);
    }
  }

  /**
   * For any clock, a window that holds more allowed calls than the limit holds one whose answer
   * differed from the full history's.
   */
  lemma {:induction false} OverflowNamesCulprit(calls: seq<Call>, key: string, from: int, maxRequests: nat,
                                                windowMs: int)
    returns (k: nat)
    requires AllowedWithin(calls, key, from, from + windowMs) > maxRequests
    ensures k < |calls| && calls[k].allowed && calls[k].key == key && from <= calls[k].time < from + windowMs
    ensures !HistoryAllows(calls[..k], key, calls[k].time, maxRequests, windowMs)
  {
    var n := |calls| - 1;
    var front, last := calls[..n], calls[n];
    if AllowedWithin(front, key, from, from + windowMs) > maxRequests {
      k := OverflowNamesCulprit(front, key, from, maxRequests, windowMs);
      assert front[..k] == calls[..k];
    } else {
      k := n;
      WindowCounts(front, key, from, last.time, windowMs);
    }
  }

  lemma AllowedMore(calls: seq<Call>, call: Call, key: string, from: int, to: int)
    ensures AllowedWithin(calls + [call], key, from, to) ==
      AllowedWithin(calls, key, from, to) + if call.allowed && call.key == key && from <= call.time < to then 1 else 0
  {
    assert (calls + [call])[..|calls|] == calls;
  }

  /** The allowed calls in the window that starts at `from`. */
  function Held(calls: seq<Call>, key: string, from: int, windowMs: int): nat {
    AllowedWithin(calls, key, from, from + windowMs)
  }

  ghost predicate Bounded(calls: seq<Call>, key: string, maxRequests: nat, windowMs: int) {
    forall from :: Held(calls, key, from, windowMs) <= maxRequests
  }

  /** Some window that holds `now` is full already. */
  ghost predicate FullAround(calls: seq<Call>, key: string, now: int, maxRequests: nat, windowMs: int) {
    exists from :: from <= now < from + windowMs && Held(calls, key, from, windowMs) >= maxRequests
  }

  /** Too few are remembered to refuse a call that overfills a window. */
  ghost predicate LetsOverflow(calls: seq<Call>, key: string, now: int, maxRequests: nat, windowMs: int) {
    |Remembered(calls, key, now, windowMs)| < maxRequests && FullAround(calls, key, now, maxRequests, windowMs)
  }

  ghost predicate LetOverflowAt(calls: seq<Call>, key: string, maxRequests: nat, windowMs: int, k: nat)
    requires k < |calls|
  {
    calls[k].key == key && LetsOverflow(calls[..k], key, calls[k].time, maxRequests, windowMs)
  }

  lemma HeldMore(calls: seq<Call>, call: Call, key: string, from: int, windowMs: int)
    ensures Held(calls + [call], key, from, windowMs) ==
      Held(calls, key, from, windowMs)
      + if call.allowed && call.key == key && from <= call.time < from + windowMs then 1 else 0
  {
    AllowedMore(calls, call, key, from, from + windowMs);
  }

  lemma BoundedMore(calls: seq<Call>, call: Call, key: string, maxRequests: nat, windowMs: int)
    ensures Bounded(calls + [call], key, maxRequests, windowMs) <==>
      && Bounded(calls, key, maxRequests, windowMs)
      && !(call.allowed && call.key == key && FullAround(calls, key, call.time, maxRequests, windowMs))
  {
    hide Held;
    var after := calls + [call];
    forall from ensures Held(after, key, from, windowMs) ==
      Held(calls, key, from, windowMs)
      + if call.allowed && call.key == key && from <= call.time < from + windowMs then 1 else 0
    {
      HeldMore(calls, call, key, from, windowMs);
    }
  }

  lemma LetsOverflowMeans(calls: seq<Call>, key: string, now: int, maxRequests: nat, windowMs: int)
    ensures LetsOverflow(calls, key, now, maxRequests, windowMs) <==>
      |Remembered(calls, key, now, windowMs)| < maxRequests && FullAround(calls, key, now, maxRequests, windowMs)
  {
  }

  lemma NothingBounded(key: string, maxRequests: nat, windowMs: int)
    ensures Bounded([], key, maxRequests, windowMs)
  {
  }

  /**
   * For any clock, the bound on all windows of a key fails if and only if, at some call, fewer
   * than the limit were remembered while a window around the call was full already.
   */
  lemma {:induction false} OverflowsExactly(calls: seq<Call>, key: string, maxRequests: nat, windowMs: int)
    requires Answered(calls, maxRequests, windowMs)
    ensures !Bounded(calls, key, maxRequests, windowMs) <==>
      exists k :: 0 <= k < |calls| && LetOverflowAt(calls, key, maxRequests, windowMs, k)
  {
    hide Bounded, LetsOverflow, Allows, Remembered, Counted;
    if calls == [] {
      NothingBounded(key, maxRequests, windowMs);
    } else {
      var n := |calls| - 1;
      var front, last := calls[..n], calls[n];
      assert calls == front + [last];
      assert forall k :: 0 <= k < n ==> front[..k] == calls[..k];
      assert forall k :: 0 <= k < n ==>
        (LetOverflowAt(front, key, maxRequests, windowMs, k) <==> LetOverflowAt(calls, key, maxRequests, windowMs, k));
      OverflowsExactly(front, key, maxRequests, windowMs);
      BoundedMore(front, last, key, maxRequests, windowMs);
      DiffersExactly(front, last.key, last.time, maxRequests, windowMs);
      assert LetOverflowAt(calls, key, maxRequests, windowMs, n) <==>
        last.allowed && last.key == key && FullAround(front, key, last.time, maxRequests, windowMs) by {
        LetsOverflowMeans(front, key, last.time, maxRequests, windowMs);
      }
    }
  }

  /** That takes a call inside the window that was forgotten. */
  lemma OverflowForgets(calls: seq<Call>, key: string, now: int, maxRequests: nat, windowMs: int)
    requires LetsOverflow(calls, key, now, maxRequests, windowMs)
    ensures Forgets(calls, key, now, windowMs)
  {
    hide AllowedWithin, Prune, AllowedTimes, Record, Remembered, Counted, Forgets, Allows;
    var from :| from <= now < from + windowMs && Held(calls, key, from, windowMs) >= maxRequests;
    WindowCounts(calls, key, from, now, windowMs);
    DiffersExactly(calls, key, now, maxRequests, windowMs);
  }

  /** The clock never ran backwards. */
  ghost predicate InOrder(calls: seq<Call>) {
    forall i, j :: 0 <= i < j < |calls| ==> calls[i].time <= calls[j].time
  }

  /** With a clock that does not run backwards nothing is forgotten. */
  lemma OrderedForgetsNothing(calls: seq<Call>, key: string, now: int, windowMs: int)
    requires NotAfter(calls, now)
    ensures !Forgets(calls, key, now, windowMs)
  {
  }

  /** No call of the key came when one inside its window was forgotten. */
  ghost predicate NeverForgets(calls: seq<Call>, key: string, windowMs: int) {
    forall k :: 0 <= k < |calls| && calls[k].key == key ==> !Forgets(calls[..k], key, calls[k].time, windowMs)
  }

  /**
   * For any clock, while nothing is forgotten no window of the given length, wherever it lies,
   * holds more allowed calls of the key than the limit.
   */
  lemma RememberingBounds(calls: seq<Call>, key: string, from: int, maxRequests: nat, windowMs: int)
    requires Answered(calls, maxRequests, windowMs) && NeverForgets(calls, key, windowMs)
    ensures AllowedWithin(calls, key, from, from + windowMs) <= maxRequests
  {
    hide AllowedWithin, Allows, HistoryAllows, Forgets;
    if AllowedWithin(calls, key, from, from + windowMs) > maxRequests {
      var k := OverflowNamesCulprit(calls, key, from, maxRequests, windowMs);
      DiffersExactly(calls[..k], key, calls[k].time, maxRequests, windowMs);
    }
  }

  /** So with a clock that does not run backwards. */
  lemma WindowsBounded(calls: seq<Call>, key: string, from: int, maxRequests: nat, windowMs: int)
    requires Answered(calls, maxRequests, windowMs) && InOrder(calls)
    ensures AllowedWithin(calls, key, from, from + windowMs) <= maxRequests
  {
    hide AllowedWithin, Answered, Forgets;
    forall k | 0 <= k < |calls| && calls[k].key == key
      ensures !Forgets(calls[..k], key, calls[k].time, windowMs)
    {
      OrderedForgetsNothing(calls[..k], key, calls[k].time, windowMs);
    }
    RememberingBounds(calls, key, from, maxRequests, windowMs);
  }

  /** Then the history's answer is the number of allowed calls in the window that ends now. */
  lemma {:induction false} HistoryIsWindow(calls: seq<Call>, key: string, now: int, windowMs: int)
    requires NotAfter(calls, now)
    ensures |Prune(AllowedTimes(calls, key), now, windowMs)| == AllowedWithin(calls, key, now - windowMs + 1, now + 1)
  {
    if calls == [] {
    } else {
      hide AllowedTimes, Prune;
      var n := |calls| - 1;
      var front, last := calls[..n], calls[n];
      assert calls == front + [last];
      HistoryIsWindow(front, key, now, windowMs);
      TimesMore(front, last, key, now, windowMs);
    }
  }

  // ---------------------------------------------------------------- keys

  /** The calls of one key, in order. */
  function Only(calls: seq<Call>, key: string): seq<Call> {
    if calls == [] then []
    else
      var front, last := calls[..|calls| - 1], calls[|calls| - 1];
      if last.key == key then Only(front, key) + [last] else Only(front, key)
  }

  lemma {:induction false} OnlyMatters(calls: seq<Call>, key: string, windowMs: int)
    ensures Record(Only(calls, key), key, windowMs) == Record(calls, key, windowMs)
  {
    if calls == [] {
    } else {
      hide Prune;
      var n := |calls| - 1;
      var front, last := calls[..n], calls[n];
      OnlyMatters(front, key, windowMs);
      assert (Only(front, key) + [last])[..|Only(front, key)|] == Only(front, key);
    }
  }

  /** Keys do not interfere: an answer depends on the calls of its own key alone. */
  lemma KeysApart(calls: seq<Call>, calls': seq<Call>, key: string, now: int, maxRequests: nat, windowMs: int)
    requires Only(calls, key) == Only(calls', key)
    ensures Allows(calls, key, now, maxRequests, windowMs) <==> Allows(calls', key, now, maxRequests, windowMs)
  {
    hide Record, Prune, Only;
    OnlyMatters(calls, key, windowMs);
    OnlyMatters(calls', key, windowMs);
  }

  // ---------------------------------------------------------------- the object

  function Stored(records: map<string, seq<int>>, key: string): seq<int> {
    if key in records then records[key] else []
  }

  /** Each record is what the calls of its key left. */
  ghost predicate RecordsOf(records: map<string, seq<int>>, calls: seq<Call>, windowMs: int) {
    forall key :: Stored(records, key) == Record(calls, key, windowMs)
  }

  lemma RecordAfter(calls: seq<Call>, call: Call, windowMs: int)
    ensures forall key :: key != call.key ==> Record(calls + [call], key, windowMs) == Record(calls, key, windowMs)
    ensures Record(calls + [call], call.key, windowMs) ==
      Prune(Record(calls, call.key, windowMs), call.time, windowMs) + if call.allowed then [call.time] else []
  {
    hide Prune;
    assert (calls + [call])[..|calls|] == calls;
  }

  lemma RecordsAfter(records: map<string, seq<int>>, calls: seq<Call>, call: Call, windowMs: int)
    requires RecordsOf(records, calls, windowMs)
    ensures var valid := Prune(Stored(records, call.key), call.time, windowMs);
      RecordsOf(records[call.key := if call.allowed then valid + [call.time] else valid], calls + [call], windowMs)
  {
    hide Prune;
    RecordAfter(calls, call, windowMs);
    var valid := Prune(Stored(records, call.key), call.time, windowMs);
    assert valid + [] == valid;
    assert Stored(records, call.key) == Record(calls, call.key, windowMs);
  }

  lemma AnswerIs(records: map<string, seq<int>>, calls: seq<Call>, call: Call, maxRequests: nat, windowMs: int)
    requires RecordsOf(records, calls, windowMs)
    requires call.allowed <==> |Prune(Stored(records, call.key), call.time, windowMs)| < maxRequests
    ensures call.allowed <==> |Remembered(calls, call.key, call.time, windowMs)| < maxRequests
    ensures Answered(calls, maxRequests, windowMs) ==> Answered(calls + [call], maxRequests, windowMs)
    ensures NotAfter(calls, call.time) ==>
      (call.allowed <==>
        AllowedWithin(calls, call.key, call.time - windowMs + 1, call.time + 1) < maxRequests)
  {
    hide Remembered, Prune, AllowedTimes, AllowedWithin, Forgets;
    assert Stored(records, call.key) == Record(calls, call.key, windowMs);
    DiffersExactly(calls, call.key, call.time, maxRequests, windowMs);
    if NotAfter(calls, call.time) {
      OrderedForgetsNothing(calls, call.key, call.time, windowMs);
      HistoryIsWindow(calls, call.key, call.time, windowMs);
    }
    var after := calls + [call];
    assert forall i :: 0 <= i < |calls| ==> after[..i] == calls[..i];
    assert after[..|calls|] == calls;
  }

  class InMemoryRateLimiter {
    var records: map<string, seq<int>>
    ghost var calls: seq<Call>

    /** Every call so far used this window length. */
    ghost predicate Valid(windowMs: int)
      reads this
    {
      RecordsOf(records, calls, windowMs)
    }

    constructor ()
      ensures forall windowMs :: Valid(windowMs)
      ensures calls == []
    {
      records := map[];
      calls := [];
    }

    /** `now` is whatever the clock says. */
    method CheckLimit(key: string, maxRequests: nat, windowMs: int, now: int) returns (allowed: bool)
      modifies this
      ensures calls == old(calls) + [Call(key, now, allowed)]
      ensures var valid := Prune(Stored(old(records), key), now, windowMs);
        && (allowed <==> |valid| < maxRequests)
        && records == old(records)[key := if allowed then valid + [now] else valid]
      ensures old(Valid(windowMs)) ==>
        && Valid(windowMs)
        && (allowed <==> |Remembered(old(calls), key, now, windowMs)| < maxRequests)
        && (Answered(old(calls), maxRequests, windowMs) ==> Answered(calls, maxRequests, windowMs))
        && (NotAfter(old(calls), now) ==>
              (allowed <==> AllowedWithin(old(calls), key, now - windowMs + 1, now + 1) < maxRequests))
    {
      hide RecordsOf, Remembered, Answered, AllowedWithin, NotAfter;
      var timestamps := if key in records then records[key] else [];
      var valid := [];
      for i := 0 to |timestamps|
        invariant records == old(records) && calls == old(calls)
        invariant valid == Prune(timestamps[..i], now, windowMs)
      {
        assert timestamps[..i + 1] == timestamps[..i] + [timestamps[i]];
        PruneAppend(timestamps[..i], timestamps[i], now, windowMs);
        if now - timestamps[i] < windowMs {
          valid := valid + [timestamps[i]];
        }
      }
      assert timestamps[..|timestamps|] == timestamps;
      ghost var call := Call(key, now, |valid| < maxRequests);
      if Valid(windowMs) {
        AnswerIs(records, calls, call, maxRequests, windowMs);
        RecordsAfter(records, calls, call, windowMs);
      }
      calls := calls + [call];
      if |valid| >= maxRequests {
        records := records[key := valid];
        return false;
      }
      valid := valid + [now];
      records := records[key := valid];
      return true;
    }

    method Reset()
      modifies this
      ensures records == map[] && calls == []
    {
      records := map[];
      calls := [];
    }
  }

  // ---------------------------------------------------------------- a clock that runs backwards

  lemma ServeOne(requests: seq<(string, int)>, key: string, now: int, maxRequests: nat, windowMs: int)
    ensures var calls := Serve(requests, maxRequests, windowMs);
      Serve(requests + [(key, now)], maxRequests, windowMs) ==
        calls + [Call(key, now, Allows(calls, key, now, maxRequests, windowMs))]
  {
    assert (requests + [(key, now)])[..|requests|] == requests;
  }

  /** One more allowed call of the key, after `kept` of its times were kept. */
  lemma OneMore(requests: seq<(string, int)>, kept: seq<int>, key: string, now: int, from: int, to: int,
                maxRequests: nat, windowMs: int)
    requires Prune(Record(Serve(requests, maxRequests, windowMs), key, windowMs), now, windowMs) == kept
    requires |kept| < maxRequests
    ensures var calls := Serve(requests + [(key, now)], maxRequests, windowMs);
      && calls == Serve(requests, maxRequests, windowMs) + [Call(key, now, true)]
      && Record(calls, key, windowMs) == kept + [now]
      && AllowedWithin(calls, key, from, to) ==
           AllowedWithin(Serve(requests, maxRequests, windowMs), key, from, to) + if from <= now < to then 1 else 0
  {
    hide Prune, Record, Serve, AllowedWithin;
    var before := Serve(requests, maxRequests, windowMs);
    ServeOne(requests, key, now, maxRequests, windowMs);
    RecordAfter(before, Call(key, now, true), windowMs);
    AllowedMore(before, Call(key, now, true), key, from, to);
  }

  lemma NothingYet(key: string, maxRequests: nat, windowMs: int, from: int, to: int)
    ensures var calls := Serve([], maxRequests, windowMs);
      calls == [] && Record(calls, key, windowMs) == [] && AllowedWithin(calls, key, from, to) == 0
    ensures forall now :: Prune([], now, windowMs) == []
  {
  }

  /**
   * A clock that runs backwards breaks the bound. With two requests per 10 ms, a call at 10 has
   * pruned two at 0 when a call at 5 comes, which is let through: three within [0, 10).
   */
  lemma BackwardsClockExample(key: string)
    ensures var calls := Serve([(key, 0), (key, 0), (key, 10), (key, 5)], 2, 10);
      && calls == [Call(key, 0, true), Call(key, 0, true), Call(key, 10, true), Call(key, 5, true)]
      && Answered(calls, 2, 10)
      && AllowedWithin(calls, key, 0, 10) == 3
  {
    hide Prune, Record, Serve, AllowedWithin, Answered;
    ServeAnswers([(key, 0), (key, 0), (key, 10), (key, 5)], 2, 10);
    NothingYet(key, 2, 10, 0, 10);
    OneMore([], [], key, 0, 0, 10, 2, 10);
    var one := [(key, 0)];
    assert [] + [(key, 0)] == one && [] + [0] == [0];
    PruneAppend([], 0, 0, 10);
    OneMore(one, [0], key, 0, 0, 10, 2, 10);
    var two := one + [(key, 0)];
    PruneAppend([], 0, 10, 10);
    PruneAppend([0], 0, 10, 10);
    OneMore(two, [], key, 10, 0, 10, 2, 10);
    assert [] + [10] == [10];
    var three := two + [(key, 10)];
    PruneAppend([], 10, 5, 10);
    OneMore(three, [10], key, 5, 0, 10, 2, 10);
    assert three + [(key, 5)] == [(key, 0), (key, 0), (key, 10), (key, 5)];
  }
}
