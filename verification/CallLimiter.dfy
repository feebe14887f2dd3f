/** The analyzer's sliding-window limiter: at most ten model calls a minute. */
module CallLimiter {
  const CALLS := 10
  const WINDOW := 60.0
  const MARGIN := 0.1

  /** The oldest entries that have left the window. */
  function Dropped(times: seq<real>, now: real): seq<real> {
    if times != [] && now - times[0] > WINDOW then Dropped(times[1..], now) else times
  }

  /** How long to sleep, given the times left after dropping. */
  function SleepFor(times: seq<real>, now: real): real {
    if |times| >= CALLS && WINDOW - (now - times[0]) + MARGIN > 0.0 then WINDOW - (now - times[0]) + MARGIN else 0.0
  }

  ghost predicate Ordered(history: seq<real>) {
    forall i, j :: 0 <= i < j < |history| ==> history[i] <= history[j]
  }

  /** Any eleven consecutive calls span more than the window. */
  ghost predicate Limited(history: seq<real>) {
    forall i :: 0 <= i && i + CALLS < |history| ==> history[i + CALLS] - history[i] > WINDOW
  }

  ghost predicate IsSuffix(times: seq<real>, history: seq<real>) {
    |times| <= |history| && times == history[|history| - |times|..]
  }

  /** The first eleven entries never fit in one window; older calls than the deque's are gone from it. */
  ghost predicate Inv(times: seq<real>, history: seq<real>) {
    && Ordered(history) && Limited(history) && IsSuffix(times, history) && |times| <= CALLS + 1
    && (history != [] ==> times != [])
    && forall k :: 0 <= k < |history| - |times| ==> history[|history| - 1] - history[k] > WINDOW
  }

  lemma {:induction false} DroppedSuffix(times: seq<real>, history: seq<real>, now: real)
    requires Inv(times, history) && (history != [] ==> history[|history| - 1] <= now)
    ensures var left := Dropped(times, now);
            IsSuffix(left, history) && |left| <= CALLS &&
            (left != [] ==> now - left[0] <= WINDOW) &&
            forall k :: 0 <= k < |history| - |left| ==> now - history[k] > WINDOW
  {
    var n := |history|;
    if |times| == CALLS + 1 {
      assert history[n - 1] - history[n - 1 - CALLS] > WINDOW;
      assert times[0] == history[n - 1 - CALLS];
      DropFrom(times[1..], history, now);
    }
    DropFrom(times, history, now);
  }

  lemma {:induction false} DropFrom(times: seq<real>, history: seq<real>, now: real)
    requires IsSuffix(times, history)
    requires forall k :: 0 <= k < |history| - |times| ==> now - history[k] > WINDOW
    ensures var left := Dropped(times, now);
            IsSuffix(left, history) && |left| <= |times| && (left != [] ==> now - left[0] <= WINDOW) &&
            forall k :: 0 <= k < |history| - |left| ==> now - history[k] > WINDOW
    decreases |times|
  {
    if times != [] && now - times[0] > WINDOW {
      DropFrom(times[1..], history, now);
    }
  }

  /** Calling after the sleep keeps the limit, although the head is not dropped again. */
  lemma CallKeepsInv(left: seq<real>, history: seq<real>, now: real, wake: real)
    requires Ordered(history) && Limited(history) && IsSuffix(left, history) && |left| <= CALLS
    requires history != [] ==> history[|history| - 1] <= now
    requires forall k :: 0 <= k < |history| - |left| ==> now - history[k] > WINDOW
    requires wake >= now + SleepFor(left, now)
    requires left != [] ==> now - left[0] <= WINDOW
    ensures Inv(left + [wake], history + [wake])
  {
    var h, n := history + [wake], |history|;
    SuffixGrows(left, history, wake);
    if n >= CALLS {
      if |left| == CALLS {
        assert left[0] == history[n - CALLS];
      }
      assert wake - history[n - CALLS] > WINDOW;
    }
    assert forall k :: 0 <= k < n ==> h[k] == history[k];
    LimitedGrows(history, wake);
  }

  lemma SuffixGrows(left: seq<real>, history: seq<real>, wake: real)
    requires IsSuffix(left, history)
    ensures IsSuffix(left + [wake], history + [wake])
  {
    assert (history + [wake])[|history| - |left|..] == history[|history| - |left|..] + [wake];
  }

  lemma LimitedGrows(history: seq<real>, wake: real)
    requires Limited(history) && (|history| >= CALLS ==> wake - history[|history| - CALLS] > WINDOW)
    ensures Limited(history + [wake])
  {
    var h := history + [wake];
    forall i | 0 <= i && i + CALLS < |h|
      ensures h[i + CALLS] - h[i] > WINDOW
    {
      if i + CALLS < |history| {
        assert history[i + CALLS] - history[i] > WINDOW;
      }
    }
  }

  class Limiter {
    var callTimes: seq<real>
    /** Every call so far. */
    ghost var history: seq<real>

    ghost predicate Valid()
      reads this
    {
      Inv(callTimes, history)
    }

    constructor ()
      ensures Valid() && history == []
    {
      callTimes := [];
      history := [];
    }

    /** Drops entries older than the window. At most ten remain. */
    method Expire(now: real)
      requires Valid() && (history != [] ==> history[|history| - 1] <= now)
      modifies this`callTimes
      ensures callTimes == Dropped(old(callTimes), now) && |callTimes| <= CALLS
    {
      DroppedSuffix(callTimes, history, now);
      while callTimes != [] && now - callTimes[0] > WINDOW
        invariant Dropped(callTimes, now) == Dropped(old(callTimes), now)
        decreases |callTimes|
      {
        callTimes := callTimes[1..];
      }
    }

    /** `now` is read on entry and `wake` after the sleep, which lasts at least as long as asked. */
    method RateLimit(now: real, wake: real)
      requires Valid() && (history != [] ==> history[|history| - 1] <= now)
      requires wake >= now + SleepFor(Dropped(callTimes, now), now)
      modifies this
      ensures Valid() && history == old(history) + [wake]
      ensures callTimes == Dropped(old(callTimes), now) + [wake]
    {
      DroppedSuffix(callTimes, history, now);
      Expire(now);
      CallKeepsInv(callTimes, history, now, wake);
      callTimes := callTimes + [wake];
      history := history + [wake];
    }
  }

  // ---- whole histories -----------------------------------------------------------------------

  /** One call: the clock readings before and after the sleep. */
  datatype Call = Call(now: real, wake: real)

  /** The deque after a sequence of calls. */
  function TimesAfter(calls: seq<Call>): seq<real> {
    if calls == [] then []
    else Dropped(TimesAfter(calls[..|calls| - 1]), calls[|calls| - 1].now) + [calls[|calls| - 1].wake]
  }

  function Wakes(calls: seq<Call>): (r: seq<real>)
    ensures |r| == |calls|
  {
    if calls == [] then [] else Wakes(calls[..|calls| - 1]) + [calls[|calls| - 1].wake]
  }

  /** The clock is monotonic and every sleep lasts at least as long as asked. */
  ghost predicate Honest(calls: seq<Call>) {
    calls == [] ||
    (var before, last := calls[..|calls| - 1], calls[|calls| - 1];
     Honest(before) && (before != [] ==> before[|before| - 1].wake <= last.now) &&
     last.wake >= last.now + SleepFor(Dropped(TimesAfter(before), last.now), last.now))
  }

  lemma {:induction false} HistoryInv(calls: seq<Call>)
    requires Honest(calls)
    ensures Inv(TimesAfter(calls), Wakes(calls))
  {
    if calls != [] {
      var before, last := calls[..|calls| - 1], calls[|calls| - 1];
      HistoryInv(before);
      DroppedSuffix(TimesAfter(before), Wakes(before), last.now);
      CallKeepsInv(Dropped(TimesAfter(before), last.now), Wakes(before), last.now, last.wake);
    }
  }

  function CallsWithin(history: seq<real>, from: real): nat {
    if history == [] then 0
    else CallsWithin(history[..|history| - 1], from)
         + if from <= history[|history| - 1] <= from + WINDOW then 1 else 0
  }

  lemma {:induction false} FewWithin(history: seq<real>, from: real, lo: nat)
    requires Ordered(history) && lo <= |history|
    requires forall k :: 0 <= k < lo ==> history[k] < from
    ensures CallsWithin(history, from) <= |history| - lo
    decreases |history|
  {
    if lo < |history| {
      FewWithin(history[..|history| - 1], from, lo);
    } else {
      NoneWithin(history, from);
    }
  }

  lemma {:induction false} NoneWithin(history: seq<real>, from: real)
    requires forall k :: 0 <= k < |history| ==> history[k] < from || history[k] > from + WINDOW
    ensures CallsWithin(history, from) == 0
  {
    if history != [] {
      NoneWithin(history[..|history| - 1], from);
    }
  }

  lemma {:induction false} AtMostTen(history: seq<real>, from: real)
    requires Ordered(history) && Limited(history)
    ensures CallsWithin(history, from) <= CALLS
  {
    var n := |history|;
    if n > 0 {
      var before := history[..n - 1];
      if history[n - 1] > from + WINDOW {
        AtMostTen(before, from);
      } else if n > CALLS {
        assert history[n - 1 - CALLS + CALLS] - history[n - 1 - CALLS] > WINDOW;
        FewWithin(history, from, n - CALLS);
      } else {
        FewWithin(history, from, 0);
      }
    }
  }

  /** Call `i + 10` comes more than 60 seconds after call `i`, so no closed minute holds more than
      ten calls, and the deque is a suffix of the history with at most eleven entries. */
  lemma LimiterBound(calls: seq<Call>, from: real)
    requires Honest(calls)
    ensures Limited(Wakes(calls)) && CallsWithin(Wakes(calls), from) <= CALLS
    ensures IsSuffix(TimesAfter(calls), Wakes(calls)) && |TimesAfter(calls)| <= CALLS + 1
  {
    HistoryInv(calls);
    AtMostTen(Wakes(calls), from);
  }
}
