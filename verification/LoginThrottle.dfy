/** The fixed-window login throttle, per user name and per source address. */
module LoginThrottle {
  import opened Wrappers

  const WINDOW := 300

  /** One row of `login_attempts`. */
  datatype Row = Row(count: nat, start: int)

  predicate Expired(row: Row, now: int) {
    now - row.start > WINDOW
  }

  predicate Throttled(row: Option<Row>, cap: int, now: int) {
    cap > 0 && row.Some? && !Expired(row.value, now) && row.value.count >= cap
  }

  function Recorded(row: Option<Row>, now: int): Row {
    if row.None? || Expired(row.value, now) then Row(1, now) else row.value.(count := row.value.count + 1)
  }

  function Lookup(rows: map<string, Row>, key: string): Option<Row> {
    if key in rows then Some(rows[key]) else None
  }

  class LoginAttempts {
    var rows: map<string, Row>

    constructor ()
      ensures rows == map[]
    {
      rows := map[];
    }

    method LoginThrottled(key: string, cap: int, now: int) returns (r: bool)
      ensures r <==> Throttled(Lookup(rows, key), cap, now)
      ensures r <==> cap > 0 && key in rows && now <= rows[key].start + 300 && rows[key].count >= cap
    {
      if cap <= 0 {
        return false;
      }
      if key !in rows || now - rows[key].start > WINDOW {
        return false;
      }
      r := rows[key].count >= cap;
    }

    method RecordLoginFailure(key: string, now: int)
      modifies this
      ensures rows == old(rows)[key := Recorded(Lookup(old(rows), key), now)]
      ensures rows.Keys == old(rows).Keys + {key} && forall k :: k in old(rows) && k != key ==> rows[k] == old(rows)[k]
      ensures key in old(rows) && now <= old(rows)[key].start + 300 ==>
                rows[key].count == old(rows)[key].count + 1 && rows[key].start == old(rows)[key].start
      ensures key !in old(rows) || now > old(rows)[key].start + 300 ==> rows[key].count == 1 && rows[key].start == now
    {
      if key !in rows {
        rows := rows[key := Row(1, now)];
      } else if now - rows[key].start > WINDOW {
        rows := rows[key := Row(1, now)];
      } else {
        rows := rows[key := rows[key].(count := rows[key].count + 1)];
      }
    }

    method ClearLoginAttempts(key: string)
      modifies this
      ensures rows == old(rows) - {key}
    {
      rows := rows - {key};
    }

    /** The login route: a throttled attempt changes nothing; a failure counts against both keys; a
        success clears the user name's row and leaves the address's row alone. */
    method Login(user: string, address: string, addressCap: int, valid: bool, cap: int, checkAt: int, recordAt: int)
      returns (refused: bool)
      modifies this
      ensures refused <==> Throttled(Lookup(old(rows), user), cap, checkAt) ||
                           (address != "" && Throttled(Lookup(old(rows), address), addressCap, checkAt))
      ensures refused ==> rows == old(rows)
      ensures !refused && valid ==> rows == old(rows) - {user}
      ensures !refused && !valid ==>
                var counted := old(rows)[user := Recorded(Lookup(old(rows), user), recordAt)];
                rows == if address == "" then counted
                        else counted[address := Recorded(Lookup(counted, address), recordAt)]
    {
      refused := LoginThrottled(user, cap, checkAt);
      if !refused && address != "" {
        refused := LoginThrottled(address, addressCap, checkAt);
      }
      if refused {
        return;
      }
      if !valid {
        RecordLoginFailure(user, recordAt);
        if address != "" {
          RecordLoginFailure(address, recordAt);
        }
      } else {
        ClearLoginAttempts(user);
      }
    }
  }

  // ---- histories of one key ----------------------------------------------------------------
  // The check and the record are separate transactions, so several attempts may be between the two,
  // and each reads the clock before its transaction, any time before. Histories below have no
  // successful login of a user name; an address key is never cleared.

  /** A recorded failure, the time it is stamped with and the number of the window it was counted in. */
  datatype Failure = Failure(time: int, window: nat)

  /** `flying` holds the check times of the attempts that got past the check and are not recorded
      yet; `starts` are the windows. */
  datatype State = State(row: Option<Row>, flying: seq<int>, clock: int, starts: seq<int>, failures: seq<Failure>)

  /** `Fail` and `Leave` are about the attempt `k` of those flying; `Leave` is one that ends without
      being counted, as a valid one does for an address. */
  datatype Event = Tick(to: int) | Pass(at: int) | Refuse(at: int) | Fail(k: nat, at: int) | Leave(k: nat)

  const Fresh := State(None, [], 0, [], [])

  ghost predicate Enabled(s: State, e: Event, cap: int, width: nat) {
    match e
    case Tick(to) => s.clock <= to
    case Pass(at) => at <= s.clock && !Throttled(s.row, cap, at) && |s.flying| < width
    case Refuse(at) => at <= s.clock && Throttled(s.row, cap, at)
    case Fail(k, at) => k < |s.flying| && s.flying[k] <= at <= s.clock
    case Leave(k) => k < |s.flying|
  }

  function Without(xs: seq<int>, k: nat): seq<int>
    requires k < |xs|
  {
    xs[..k] + xs[k + 1..]
  }

  function Starts(s: State, at: int): seq<int> {
    if s.row.None? || Expired(s.row.value, at) then s.starts + [at] else s.starts
  }

  ghost function Next(s: State, e: Event): State
    requires (e.Fail? || e.Leave?) ==> e.k < |s.flying|
  {
    match e
    case Tick(to) => s.(clock := to)
    case Pass(at) => s.(flying := s.flying + [at])
    case Refuse(_) => s
    case Leave(k) => s.(flying := Without(s.flying, k))
    case Fail(k, at) =>
      var starts := Starts(s, at);
      State(Some(Recorded(s.row, at)), Without(s.flying, k), s.clock, starts,
            s.failures + [Failure(at, if |starts| > 0 then |starts| - 1 else 0)])
  }

  ghost predicate Possible(s: State, es: seq<Event>, cap: int, width: nat)
    decreases |es|
  {
    es == [] || (Enabled(s, es[0], cap, width) && Possible(Next(s, es[0]), es[1..], cap, width))
  }

  ghost function After(s: State, es: seq<Event>, cap: int, width: nat): State
    requires Possible(s, es, cap, width)
    decreases |es|
  {
    if es == [] then s else After(Next(s, es[0]), es[1..], cap, width)
  }

  /** No failure is stamped more than `slack` seconds before the start of the window it finds: a test of
      the stamp against the row's `window_start` when it is recorded. */
  ghost predicate Behind(s: State, es: seq<Event>, cap: int, width: nat, slack: nat)
    requires Possible(s, es, cap, width)
    decreases |es|
  {
    es == [] ||
    ((es[0].Fail? && s.row.Some? ==> s.row.value.start <= es[0].at + slack) &&
     Behind(Next(s, es[0]), es[1..], cap, width, slack))
  }

  /** Failures are recorded in the order of their stamps. */
  ghost predicate InOrder(s: State, es: seq<Event>, cap: int, width: nat)
    requires Possible(s, es, cap, width)
    decreases |es|
  {
    es == [] || ((es[0].Fail? ==> StampedBy(s.failures, es[0].at)) && InOrder(Next(s, es[0]), es[1..], cap, width))
  }

  predicate StampedBy(fs: seq<Failure>, at: int) {
    forall f :: f in fs ==> f.time <= at
  }

  /** Attempts one at a time: each reads the clock for its check when no other is in flight and every
      failure before it has been recorded. How long a record then takes does not matter. */
  ghost predicate OneAtATime(s: State, es: seq<Event>, cap: int, width: nat)
    requires Possible(s, es, cap, width)
    decreases |es|
  {
    es == [] ||
    ((es[0].Pass? ==> s.flying == [] && StampedBy(s.failures, es[0].at)) &&
     OneAtATime(Next(s, es[0]), es[1..], cap, width))
  }

  function InWindow(fs: seq<Failure>, w: nat): nat {
    if fs == [] then 0 else InWindow(fs[..|fs| - 1], w) + if fs[|fs| - 1].window == w then 1 else 0
  }

  /** Failures stamped in the closed interval of 300 seconds from `from`. */
  function InInterval(fs: seq<Failure>, from: int): nat {
    if fs == [] then 0
    else InInterval(fs[..|fs| - 1], from) + if from <= fs[|fs| - 1].time <= from + WINDOW then 1 else 0
  }

  // ---- the invariant -----------------------------------------------------------------------

  /** The attempts flying that were checked no later than `limit`. */
  function CheckedBy(flying: seq<int>, limit: int): (n: nat)
    ensures n <= |flying|
  {
    if flying == [] then 0 else CheckedBy(flying[..|flying| - 1], limit) + if flying[|flying| - 1] <= limit then 1 else 0
  }

  lemma CheckedByMore(flying: seq<int>, at: int, limit: int)
    ensures CheckedBy(flying + [at], limit) == CheckedBy(flying, limit) + if at <= limit then 1 else 0
  {
    assert (flying + [at])[..|flying|] == flying;
  }

  lemma {:induction false} CheckedByLess(flying: seq<int>, k: nat, limit: int)
    requires k < |flying|
    ensures CheckedBy(Without(flying, k), limit) == CheckedBy(flying, limit) - if flying[k] <= limit then 1 else 0
  {
    var front, last := flying[..|flying| - 1], flying[|flying| - 1];
    if k < |front| {
      CheckedByLess(front, k, limit);
      assert Without(flying, k) == Without(front, k) + [last];
      CheckedByMore(Without(front, k), last, limit);
    } else {
      assert Without(flying, k) == front;
    }
  }

  ghost predicate Spaced(starts: seq<int>) {
    forall i, j :: 0 <= i < j < |starts| ==> starts[j] > starts[i] + WINDOW
  }

  ghost predicate Placed(starts: seq<int>, fs: seq<Failure>) {
    forall f :: f in fs ==> f.window < |starts| && f.time <= starts[f.window] + WINDOW
  }

  ghost predicate PlacedWithin(starts: seq<int>, fs: seq<Failure>, slack: nat) {
    forall f :: f in fs ==> f.window < |starts| && starts[f.window] <= f.time + slack
  }

  ghost predicate Bounded(fs: seq<Failure>, bound: int) {
    forall w: nat :: InWindow(fs, w) <= bound
  }

  /** What is counted in the current window, and the attempts still flying that could be. */
  ghost predicate GoodRow(s: State, cap: int, width: nat) {
    s.row.Some? ==>
      && |s.starts| > 0 && s.row.value.start == s.starts[|s.starts| - 1] <= s.clock
      && s.row.value.count == InWindow(s.failures, |s.starts| - 1)
      && s.row.value.count + CheckedBy(s.flying, s.row.value.start + WINDOW) <= cap + width - 1
  }

  ghost predicate Inv(s: State, cap: int, width: nat) {
    && Spaced(s.starts) && Placed(s.starts, s.failures) && Bounded(s.failures, cap + width - 1)
    && |s.flying| <= width && (s.row.None? ==> s.starts == [])
    && GoodRow(s, cap, width)
  }

  lemma {:induction false} NoneInNewWindow(starts: seq<int>, fs: seq<Failure>, w: nat)
    requires Placed(starts, fs) && w >= |starts|
    ensures InWindow(fs, w) == 0
    decreases |fs|
  {
    if fs != [] {
      assert fs[|fs| - 1] in fs;
      NoneInNewWindow(starts, fs[..|fs| - 1], w);
    }
  }

  lemma FailKeepsWindows(s: State, k: nat, at: int, cap: int, width: nat)
    requires Inv(s, cap, width) && Enabled(s, Fail(k, at), cap, width)
    ensures var s' := Next(s, Fail(k, at)); Spaced(s'.starts) && Placed(s'.starts, s'.failures)
  {
    var s' := Next(s, Fail(k, at));
    var last := s'.failures[|s'.failures| - 1];
    assert s'.failures == s.failures + [last];
    forall f | f in s'.failures
      ensures f.window < |s'.starts| && f.time <= s'.starts[f.window] + WINDOW
    {
      if f != last {
        assert f in s.failures;
        assert s'.starts[f.window] == s.starts[f.window];
      }
    }
  }

  lemma FailCounts(s: State, k: nat, at: int, cap: int, width: nat)
    requires cap > 0 && Inv(s, cap, width) && Enabled(s, Fail(k, at), cap, width)
    ensures GoodRow(Next(s, Fail(k, at)), cap, width)
    ensures Next(s, Fail(k, at)).row.value.count <= cap + width - 1
  {
    var s' := Next(s, Fail(k, at));
    assert s'.failures[..|s'.failures| - 1] == s.failures;
    NoneInNewWindow(s.starts, s.failures, |s.starts|);
    CheckedByLess(s.flying, k, s'.row.value.start + WINDOW);
  }

  lemma FailKeepsInv(s: State, k: nat, at: int, cap: int, width: nat)
    requires cap > 0 && Inv(s, cap, width) && Enabled(s, Fail(k, at), cap, width)
    ensures Inv(Next(s, Fail(k, at)), cap, width)
  {
    var s' := Next(s, Fail(k, at));
    FailKeepsWindows(s, k, at, cap, width);
    FailCounts(s, k, at, cap, width);
    assert s'.failures[..|s'.failures| - 1] == s.failures;
    forall w: nat
      ensures InWindow(s'.failures, w) <= cap + width - 1
    {
      assert InWindow(s.failures, w) <= cap + width - 1;
    }
  }

  lemma StepKeepsInv(s: State, e: Event, cap: int, width: nat)
    requires cap > 0 && Inv(s, cap, width) && Enabled(s, e, cap, width)
    ensures Inv(Next(s, e), cap, width)
  {
    match e
    case Fail(k, at) => FailKeepsInv(s, k, at, cap, width);
    case Pass(at) =>
      if s.row.Some? {
        CheckedByMore(s.flying, at, s.row.value.start + WINDOW);
      }
    case Leave(k) =>
      if s.row.Some? {
        CheckedByLess(s.flying, k, s.row.value.start + WINDOW);
      }
    case _ =>
  }

  lemma {:induction false} InvAlways(s: State, es: seq<Event>, cap: int, width: nat)
    requires cap > 0 && Inv(s, cap, width) && Possible(s, es, cap, width)
    ensures Inv(After(s, es, cap, width), cap, width)
    decreases |es|
  {
    if es != [] {
      StepKeepsInv(s, es[0], cap, width);
      InvAlways(Next(s, es[0]), es[1..], cap, width);
    }
  }

  lemma FailKeepsPlaced(s: State, k: nat, at: int, cap: int, width: nat, slack: nat)
    requires Inv(s, cap, width) && Enabled(s, Fail(k, at), cap, width) && PlacedWithin(s.starts, s.failures, slack)
    requires s.row.Some? ==> s.row.value.start <= at + slack
    ensures var s' := Next(s, Fail(k, at)); PlacedWithin(s'.starts, s'.failures, slack)
  {
    var s' := Next(s, Fail(k, at));
    var last := s'.failures[|s'.failures| - 1];
    forall f | f in s'.failures
      ensures f.window < |s'.starts| && s'.starts[f.window] <= f.time + slack
    {
      if f in s.failures {
        assert s'.starts[f.window] == s.starts[f.window];
      } else {
        assert f == last;
      }
    }
  }

  /** Then every failure is stamped at most `slack` seconds before the start of its own window. */
  lemma {:induction false} PlacedAlways(s: State, es: seq<Event>, cap: int, width: nat, slack: nat)
    requires cap > 0 && Inv(s, cap, width) && Possible(s, es, cap, width) && Behind(s, es, cap, width, slack)
    requires PlacedWithin(s.starts, s.failures, slack)
    ensures var s' := After(s, es, cap, width); PlacedWithin(s'.starts, s'.failures, slack)
    decreases |es|
  {
    if es != [] {
      var s' := Next(s, es[0]);
      StepKeepsInv(s, es[0], cap, width);
      if es[0].Fail? {
        FailKeepsPlaced(s, es[0].k, es[0].at, cap, width, slack);
      }
      PlacedAlways(s', es[1..], cap, width, slack);
    }
  }

  /** A window starts with the stamp of a failure, so records in stamp order are never behind it. */
  lemma {:induction false} InOrderIsNotBehind(s: State, es: seq<Event>, cap: int, width: nat)
    requires Possible(s, es, cap, width) && InOrder(s, es, cap, width)
    requires s.row.Some? ==> exists f :: f in s.failures && f.time == s.row.value.start
    ensures Behind(s, es, cap, width, 0)
    decreases |es|
  {
    if es != [] {
      var s' := Next(s, es[0]);
      if es[0].Fail? {
        var last := s'.failures[|s'.failures| - 1];
        assert last in s'.failures && forall f :: f in s.failures ==> f in s'.failures;
      }
      InOrderIsNotBehind(s', es[1..], cap, width);
    }
  }

  /** What is in flight was checked no earlier than any recorded failure is stamped. */
  lemma {:induction false} OneAtATimeIsInOrder(s: State, es: seq<Event>, cap: int, width: nat)
    requires Possible(s, es, cap, width) && OneAtATime(s, es, cap, width)
    requires |s.flying| <= 1 && (s.flying != [] ==> StampedBy(s.failures, s.flying[0]))
    ensures InOrder(s, es, cap, width)
    decreases |es|
  {
    if es != [] {
      OneAtATimeIsInOrder(Next(s, es[0]), es[1..], cap, width);
    }
  }

  // ---- windows that meet an interval ---------------------------------------------------------

  /** The failures of the `n` windows from `w`. */
  function InWindows(fs: seq<Failure>, w: nat, n: nat): nat {
    if n == 0 then 0 else InWindows(fs, w, n - 1) + InWindow(fs, w + n - 1)
  }

  lemma {:induction false} WindowsBounded(fs: seq<Failure>, w: nat, n: nat, bound: int)
    requires Bounded(fs, bound)
    ensures InWindows(fs, w, n) <= n * bound
  {
    if n > 0 {
      WindowsBounded(fs, w, n - 1, bound);
      assert n * bound == (n - 1) * bound + bound;
    }
  }

  lemma {:induction false} WindowsGrow(fs: seq<Failure>, w: nat, n: nat)
    requires fs != []
    ensures var last := fs[|fs| - 1].window;
            InWindows(fs, w, n) == InWindows(fs[..|fs| - 1], w, n) + if w <= last < w + n then 1 else 0
  {
    if n > 0 {
      WindowsGrow(fs, w, n - 1);
    }
  }

  lemma {:induction false} WindowsCover(fs: seq<Failure>, from: int, w: nat, n: nat)
    requires forall f :: f in fs && from <= f.time <= from + WINDOW ==> w <= f.window < w + n
    ensures InInterval(fs, from) <= InWindows(fs, w, n)
    decreases |fs|
  {
    if fs != [] {
      assert fs[|fs| - 1] in fs;
      WindowsCover(fs[..|fs| - 1], from, w, n);
      WindowsGrow(fs, w, n);
    }
  }

  lemma {:induction false} StartsFarApart(starts: seq<int>, w: nat, v: nat)
    requires Spaced(starts) && w <= v < |starts|
    ensures starts[v] >= starts[w] + (v - w) * (WINDOW + 1)
    decreases v
  {
    if w < v {
      StartsFarApart(starts, w, v - 1);
      assert starts[v] > starts[v - 1] + WINDOW;
      assert (v - w) * (WINDOW + 1) == (v - 1 - w) * (WINDOW + 1) + (WINDOW + 1);
    }
  }

  /** How many windows an interval of 300 seconds can meet. */
  function WindowsMet(slack: nat): nat {
    1 + (2 * WINDOW + slack) / (WINDOW + 1)
  }

  /** One interval of 300 seconds meets that many consecutive windows at most: two when none is
      stamped more than a second before its window. */
  lemma FirstWindowMet(starts: seq<int>, fs: seq<Failure>, from: int, slack: nat) returns (w: nat)
    requires Spaced(starts) && Placed(starts, fs) && PlacedWithin(starts, fs, slack)
    ensures forall f :: f in fs && from <= f.time <= from + WINDOW ==> w <= f.window < w + WindowsMet(slack)
    ensures slack <= 1 ==> WindowsMet(slack) == 2
  {
    w := 0;
    while w < |starts| && starts[w] + WINDOW < from
      invariant w <= |starts|
      invariant forall v :: 0 <= v < w ==> starts[v] + WINDOW < from
    {
      w := w + 1;
    }
    forall f | f in fs && from <= f.time <= from + WINDOW
      ensures w <= f.window < w + WindowsMet(slack)
    {
      assert f.time <= starts[f.window] + WINDOW;
      if w <= f.window {
        StartsFarApart(starts, w, f.window);
        FewSteps(f.window - w, 2 * WINDOW + slack);
      }
    }
  }

  lemma FewSteps(n: nat, span: nat)
    requires n * (WINDOW + 1) <= span
    ensures n <= span / (WINDOW + 1)
  {
  }

  /** With at most `width` attempts between check and record, at most `cap + width - 1` failures get
      past the throttle in one window, however late they are recorded. */
  lemma ThrottleBound(es: seq<Event>, cap: int, width: nat, w: nat)
    requires cap > 0 && width > 0 && Possible(Fresh, es, cap, width)
    ensures InWindow(After(Fresh, es, cap, width).failures, w) <= cap + width - 1
  {
    InvAlways(Fresh, es, cap, width);
  }

  /** And in any 300 seconds that times the windows they can meet: twice, if no failure is stamped more
      than a second before the start of the window it finds. */
  lemma IntervalBound(es: seq<Event>, cap: int, width: nat, slack: nat, from: int)
    requires cap > 0 && width > 0 && Possible(Fresh, es, cap, width) && Behind(Fresh, es, cap, width, slack)
    ensures InInterval(After(Fresh, es, cap, width).failures, from) <= WindowsMet(slack) * (cap + width - 1)
    ensures slack <= 1 ==> WindowsMet(slack) == 2
  {
    InvAlways(Fresh, es, cap, width);
    PlacedAlways(Fresh, es, cap, width, slack);
    var s := After(Fresh, es, cap, width);
    var v := FirstWindowMet(s.starts, s.failures, from, slack);
    WindowsCover(s.failures, from, v, WindowsMet(slack));
    WindowsBounded(s.failures, v, WindowsMet(slack), cap + width - 1);
  }

  /** Failures recorded in the order of their stamps meet two windows, however late they are recorded. */
  lemma InOrderBound(es: seq<Event>, cap: int, width: nat, from: int)
    requires cap > 0 && width > 0 && Possible(Fresh, es, cap, width) && InOrder(Fresh, es, cap, width)
    ensures InInterval(After(Fresh, es, cap, width).failures, from) <= 2 * (cap + width - 1)
  {
    InOrderIsNotBehind(Fresh, es, cap, width);
    IntervalBound(es, cap, width, 0, from);
  }

  lemma {:induction false} OneAtATimeIsNarrow(s: State, es: seq<Event>, cap: int, width: nat)
    requires Possible(s, es, cap, width) && OneAtATime(s, es, cap, width) && |s.flying| <= 1
    ensures Possible(s, es, cap, 1) && After(s, es, cap, 1) == After(s, es, cap, width)
    ensures OneAtATime(s, es, cap, 1)
    decreases |es|
  {
    if es != [] {
      OneAtATimeIsNarrow(Next(s, es[0]), es[1..], cap, width);
    }
  }

  /** One attempt at a time: at most `cap` failures per window and `2 * cap` in any 300 seconds, for every
      history and every delay between reading the clock and recording. */
  lemma ThrottleBoundSequential(es: seq<Event>, cap: int, width: nat, w: nat, from: int)
    requires cap > 0 && Possible(Fresh, es, cap, width) && OneAtATime(Fresh, es, cap, width)
    ensures InWindow(After(Fresh, es, cap, width).failures, w) <= cap
    ensures InInterval(After(Fresh, es, cap, width).failures, from) <= 2 * cap
  {
    OneAtATimeIsNarrow(Fresh, es, cap, width);
    ThrottleBound(es, cap, 1, w);
    OneAtATimeIsInOrder(Fresh, es, cap, 1);
    InOrderBound(es, cap, 1, from);
  }

  // ---- a third window --------------------------------------------------------------------------

  lemma IntervalGrows(fs: seq<Failure>, f: Failure, from: int)
    ensures InInterval(fs + [f], from) == InInterval(fs, from) + if from <= f.time <= from + WINDOW then 1 else 0
  {
    assert (fs + [f])[..|fs|] == fs;
  }

  lemma {:induction false} BehindMore(s: State, es: seq<Event>, e: Event, cap: int, slack: nat)
    requires Possible(s, es, cap, 1) && Behind(s, es, cap, 1, slack) && Possible(s, es + [e], cap, 1)
    requires var s' := After(s, es, cap, 1); e.Fail? && s'.row.Some? ==> s'.row.value.start <= e.at + slack
    ensures Behind(s, es + [e], cap, 1, slack)
    decreases |es|
  {
    if es == [] {
      assert ([] + [e])[1..] == [];
    } else {
      assert (es + [e])[1..] == es[1..] + [e];
      BehindMore(Next(s, es[0]), es[1..], e, cap, slack);
    }
  }

  /** Nobody in flight, and no record so far more than `slack` seconds behind. */
  ghost predicate Resting(es: seq<Event>, cap: int, slack: nat) {
    Possible(Fresh, es, cap, 1) && Behind(Fresh, es, cap, 1, slack) && After(Fresh, es, cap, 1).flying == []
  }

  lemma FailAlone(es: seq<Event>, cap: int, slack: nat, at: int) returns (more: seq<Event>)
    requires Resting(es, cap, slack)
    requires var s := After(Fresh, es, cap, 1);
      at <= s.clock && !Throttled(s.row, cap, at) && (s.row.Some? ==> s.row.value.start <= at + slack)
    ensures Resting(more, cap, slack)
    ensures var s, s' := After(Fresh, es, cap, 1), After(Fresh, more, cap, 1);
            s'.clock == s.clock && s'.row == Some(Recorded(s.row, at)) &&
            InInterval(s'.failures, 300) == InInterval(s.failures, 300) + if 300 <= at <= 600 then 1 else 0
  {
    var s := After(Fresh, es, cap, 1);
    Continue(Fresh, es, Pass(at), cap, 1);
    BehindMore(Fresh, es, Pass(at), cap, slack);
    var passed := es + [Pass(at)];
    Continue(Fresh, passed, Fail(0, at), cap, 1);
    BehindMore(Fresh, passed, Fail(0, at), cap, slack);
    more := passed + [Fail(0, at)];
    var s' := After(Fresh, more, cap, 1);
    IntervalGrows(s.failures, s'.failures[|s'.failures| - 1], 300);
  }

  lemma FailTimes(es: seq<Event>, cap: int, slack: nat, at: int, n: nat) returns (more: seq<Event>)
    requires Resting(es, cap, slack)
    requires var s := After(Fresh, es, cap, 1);
      at <= s.clock && s.row.Some? && !Expired(s.row.value, at) && s.row.value.count + n <= cap &&
      s.row.value.start <= at + slack
    ensures Resting(more, cap, slack)
    ensures var s, s' := After(Fresh, es, cap, 1), After(Fresh, more, cap, 1);
            s'.clock == s.clock && s'.row == Some(Row(s.row.value.count + n, s.row.value.start)) &&
            InInterval(s'.failures, 300) == InInterval(s.failures, 300) + if 300 <= at <= 600 then n else 0
  {
    more := es;
    if n > 0 {
      more := FailTimes(es, cap, slack, at, n - 1);
      more := FailAlone(more, cap, slack, at);
    }
  }

  lemma WaitUntil(es: seq<Event>, cap: int, slack: nat, to: int) returns (more: seq<Event>)
    requires Resting(es, cap, slack) && After(Fresh, es, cap, 1).clock <= to
    ensures Resting(more, cap, slack) && After(Fresh, more, cap, 1) == After(Fresh, es, cap, 1).(clock := to)
  {
    Continue(Fresh, es, Tick(to), cap, 1);
    BehindMore(Fresh, es, Tick(to), cap, slack);
    more := es + [Tick(to)];
  }

  /** The second is the limit. For every cap from three on, failures stamped two seconds or more (up to
      302) before the start of the window they find can make it more than twice the cap in 300 seconds,
      even with one attempt in flight at a time. With cap 3: 0, 300, 300, 301, 301, 301, 602, 600, 600. */
  lemma ThirdWindowIsMet(cap: int, slack: nat) returns (es: seq<Event>)
    requires cap >= 3 && 2 <= slack <= 302
    ensures Possible(Fresh, es, cap, 1) && Behind(Fresh, es, cap, 1, slack)
    ensures InInterval(After(Fresh, es, cap, 1).failures, 300) == 3 * cap - 2 > 2 * cap
  {
    es := FailAlone([], cap, slack, 0);
    es := WaitUntil(es, cap, slack, 300);
    es := FailTimes(es, cap, slack, 300, cap - 1);
    es := WaitUntil(es, cap, slack, 301);
    es := FailAlone(es, cap, slack, 301);
    es := FailTimes(es, cap, slack, 301, cap - 1);
    es := WaitUntil(es, cap, slack, 602);
    es := FailAlone(es, cap, slack, 602);
    es := FailTimes(es, cap, slack, 602 - slack, cap - 1);
  }

  // ---- the bound is reached ----------------------------------------------------------------

  /** All at second 0: `tried` attempts one by one, then `waiting` more held between check and record. */
  ghost predicate Crowd(s: State, tried: nat, waiting: nat) {
    && s.clock == 0 && |s.flying| == waiting && (forall k :: 0 <= k < |s.flying| ==> s.flying[k] == 0)
    && InWindow(s.failures, 0) == tried
    && (if tried == 0 then s.row.None? && s.starts == [] && s.failures == []
        else s.row == Some(Row(tried, 0)) && s.starts == [0])
  }

  lemma {:induction false} Continue(s: State, es: seq<Event>, e: Event, cap: int, width: nat)
    requires Possible(s, es, cap, width) && Enabled(After(s, es, cap, width), e, cap, width)
    ensures Possible(s, es + [e], cap, width)
    ensures After(s, es + [e], cap, width) == Next(After(s, es, cap, width), e)
    decreases |es|
  {
    if es == [] {
      assert ([] + [e])[1..] == [];
    } else {
      assert (es + [e])[1..] == es[1..] + [e];
      Continue(Next(s, es[0]), es[1..], e, cap, width);
    }
  }

  ghost predicate Crowded(es: seq<Event>, cap: int, width: nat, tried: nat, waiting: nat) {
    Possible(Fresh, es, cap, width) && Crowd(After(Fresh, es, cap, width), tried, waiting)
  }

  lemma PassInCrowd(es: seq<Event>, cap: int, width: nat, tried: nat, waiting: nat)
    requires cap > 0 && Crowded(es, cap, width, tried, waiting) && tried < cap && waiting < width
    ensures Crowded(es + [Pass(0)], cap, width, tried, waiting + 1)
  {
    Continue(Fresh, es, Pass(0), cap, width);
  }

  lemma FailInCrowd(es: seq<Event>, cap: int, width: nat, tried: nat, waiting: nat)
    requires Crowded(es, cap, width, tried, waiting) && waiting > 0
    ensures Crowded(es + [Fail(0, 0)], cap, width, tried + 1, waiting - 1)
  {
    var s := After(Fresh, es, cap, width);
    Continue(Fresh, es, Fail(0, 0), cap, width);
    var s' := Next(s, Fail(0, 0));
    assert s'.failures[..|s'.failures| - 1] == s.failures;
    assert tried == 0 ==> s.starts + [0] == [0];
  }

  /** The bound is the best possible: some history of `width` overlapping attempts reaches it. */
  lemma ThrottleBoundIsReached(cap: int, width: nat) returns (es: seq<Event>)
    requires cap > 0 && width > 0
    ensures Possible(Fresh, es, cap, width)
    ensures InWindow(After(Fresh, es, cap, width).failures, 0) == cap + width - 1
  {
    es := [];
    var tried, waiting := 0, 0;
    while tried < cap - 1
      invariant 0 <= tried <= cap - 1 && Crowded(es, cap, width, tried, 0)
    {
      PassInCrowd(es, cap, width, tried, 0);
      FailInCrowd(es + [Pass(0)], cap, width, tried, 1);
      es := es + [Pass(0)] + [Fail(0, 0)];
      tried := tried + 1;
    }
    while waiting < width
      invariant 0 <= waiting <= width && Crowded(es, cap, width, tried, waiting)
    {
      PassInCrowd(es, cap, width, tried, waiting);
      es := es + [Pass(0)];
      waiting := waiting + 1;
    }
    while waiting > 0
      invariant 0 <= waiting && tried + waiting == cap + width - 1 && Crowded(es, cap, width, tried, waiting)
    {
      FailInCrowd(es, cap, width, tried, waiting);
      es := es + [Fail(0, 0)];
      tried, waiting := tried + 1, waiting - 1;
    }
  }
}
